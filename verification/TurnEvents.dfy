/** The unified events of one turn, and the artifact events derived from `write` tool calls. */
module TurnEvents {
  import opened Text
  import opened Usage
  import ArtifactPaths

  datatype Artifact = Artifact(
    id: string, name: string, kind: string, status: string, version: nat,
    relativePath: string, size: Option<nat>, mime: string, content: Option<string>)

  /** None stands for a payload field that is absent or not a string. */
  datatype Event =
    | MessageStarted
    | MessageDelta(delta: Option<string>)
    | MessageCompleted(text: Option<string>)
    | TurnCompleted(reason: string)
    | StreamError
    | Thinking(thinking: Option<string>)
    | ThinkingDelta(part: Option<string>, running: Option<string>)
    | ToolStarted(callId: Option<string>, tool: string, arguments: Json)
    | ToolResponse(callId: Option<string>, tool: string, isError: bool)
    | ArtifactStarted(artifact: Artifact)
    | ArtifactCompleted(artifact: Artifact)
    | SessionUsage(payload: Json)
    | Other(kind: string)

  predicate Terminal(e: Event) {
    e.MessageCompleted? || e.TurnCompleted? || e.StreamError?
  }

  // ---- artifacts ----

  const INLINE_CONTENT_LIMIT := 512 * 1024

  datatype Meta = Meta(id: string, name: string, kind: string, relativePath: string, mime: string)

  /** What the extension of a path says of the artifact. */
  datatype Spec = Spec(kind: string, mime: string)

  /** The extension tables, the list of sensitive names, JSON text parsing and UTF-8 sizes are read from outside. */
  datatype Detector = Detector(
    specOf: string -> Option<Spec>, inlineable: string -> bool, sensitive: string -> bool,
    loads: string -> Option<Json>, utf8Size: string -> nat)

  /** The artifact a path value stands for, if it is a usable path with a known extension. */
  function DetectArtifact(d: Detector, path: Option<Json>): Option<Meta> {
    match path
    case Some(Str(text)) =>
      (match ArtifactPaths.NormalizeRelativePath(text)
       case None => None
       case Some(relative) =>
         (match d.specOf(relative)
          case None => None
          case Some(spec) =>
            Some(Meta(relative, ArtifactPaths.FileName(relative), spec.kind, relative, spec.mime))))
    case _ => None
  }

  type Arguments = map<string, Json>

  function ExtractWriteArguments(d: Detector, args: Json): Arguments {
    match args
    case Str(text) =>
      if text == "" then map[]
      else (match d.loads(text) case Some(Obj(fields)) => fields case _ => map[])
    case Obj(fields) => fields
    case _ => map[]
  }

  function PickFirst(args: Arguments, keys: seq<string>): Option<Json> {
    if keys == [] then None
    else if keys[0] in args then Some(args[keys[0]])
    else PickFirst(args, keys[1..])
  }

  const PATH_KEYS: seq<string> := ["file_path", "filePath", "path", "file", "relative_path"]
  const CONTENT_KEYS: seq<string> := ["content", "text", "data"]

  function BuildArtifact(d: Detector, args: Arguments, status: string, inline: bool): Option<Artifact> {
    match DetectArtifact(d, PickFirst(args, PATH_KEYS))
    case None => None
    case Some(meta) =>
      var content := match PickFirst(args, CONTENT_KEYS) case Some(Str(text)) => Some(text) case _ => None;
      var size := if content.Some? then Some(d.utf8Size(content.value)) else None;
      var inlined := inline && status == "ready" && size.Some? && d.inlineable(meta.relativePath)
                     && size.value <= INLINE_CONTENT_LIMIT && !d.sensitive(meta.relativePath);
      Some(Artifact(meta.id, meta.name, meta.kind, status, 1, meta.relativePath, size, meta.mime,
                    if inlined then content else None))
  }

  function CallKey(callId: Option<string>): string {
    if callId.Some? then callId.value else ""
  }

  type ArgumentCache = map<string, Arguments>

  function Cached(cache: ArgumentCache, callId: Option<string>): Arguments {
    if CallKey(callId) in cache then cache[CallKey(callId)] else map[]
  }

  /** The `write` hook: remember the call's arguments, and the artifact event to emit. */
  function OnArtifact(d: Detector, cache: ArgumentCache, e: Event): (ArgumentCache, seq<Event>) {
    match e
    case ToolStarted(callId, tool, arguments) =>
      if tool != "write" then (cache, [])
      else
        var args := ExtractWriteArguments(d, arguments);
        var built := BuildArtifact(d, args, "creating", false);
        (if args != map[] then cache[CallKey(callId) := args] else cache,
         if built.Some? then [ArtifactStarted(built.value)] else [])
    case ToolResponse(callId, tool, isError) =>
      if tool != "write" then (cache, [])
      else
        var built := BuildArtifact(d, Cached(cache, callId), if isError then "error" else "ready", !isError);
        (cache, if built.Some? then [ArtifactCompleted(built.value)] else [])
    case _ => (cache, [])
  }
}
