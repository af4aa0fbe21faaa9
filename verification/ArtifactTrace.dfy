/**
 The artifact events of a turn, read off the tool calls alone: which call or response is reported, with what
 status, size and content, and where the report stands in the output.
 */
module ArtifactTrace {
  import opened Text
  import opened Usage
  import opened TurnEvents
  import opened RunTurn
  import RunTurnProofs
  import ArtifactPaths

  // ---- what a call's arguments say ----

  /** The arguments are these fields, directly or as a JSON text. */
  predicate Carries(d: Detector, arguments: Json, fields: Arguments) {
    || arguments == Obj(fields)
    || (arguments.Str? && arguments.text != "" && d.loads(arguments.text) == Some(Obj(fields)))
  }

  /** The value under the first of the keys that is present. */
  predicate Given(fields: Arguments, keys: seq<string>, value: Json) {
    exists k | 0 <= k < |keys| ::
      keys[k] in fields && fields[keys[k]] == value && forall j | 0 <= j < k :: keys[j] !in fields
  }

  /** The name is what follows the last slash of the path. */
  predicate EndsIn(path: string, name: string) {
    && '/' !in name && |name| <= |path| && path[|path| - |name|..] == name
    && (|name| < |path| ==> path[|path| - |name| - 1] == '/')
  }

  /** The fields name this artifact: a usable path whose extension is known. */
  ghost predicate Names(d: Detector, fields: Arguments, a: Artifact) {
    && (exists path :: Given(fields, PATH_KEYS, Str(path))
                    && ArtifactPaths.NormalizeRelativePath(path) == Some(a.relativePath))
    && d.specOf(a.relativePath) == Some(Spec(a.kind, a.mime))
    && a.id == a.relativePath && EndsIn(a.relativePath, a.name) && a.version == 1
  }

  predicate Shown(d: Detector, a: Artifact, text: string) {
    d.inlineable(a.relativePath) && d.utf8Size(text) <= 524288 && !d.sensitive(a.relativePath)
  }

  /** Size and content follow the text of the call: the size is always told, the content only of a finished write. */
  ghost predicate Tells(d: Detector, fields: Arguments, done: bool, a: Artifact) {
    && (a.size.None? ==> forall text :: !Given(fields, CONTENT_KEYS, Str(text)))
    && (a.size.Some? ==> exists text :: Given(fields, CONTENT_KEYS, Str(text)) && a.size == Some(d.utf8Size(text)))
    && (a.content.Some? ==> done && Given(fields, CONTENT_KEYS, Str(a.content.value)) && Shown(d, a, a.content.value))
    && (a.content.None? ==> forall text | Given(fields, CONTENT_KEYS, Str(text)) :: !(done && Shown(d, a, text)))
  }

  // ---- which report belongs to which event ----

  /** A write call whose arguments are kept for its response. */
  predicate Keeps(d: Detector, e: Event, callId: Option<string>, fields: Arguments) {
    e.ToolStarted? && e.tool == "write" && Or(e.callId) == Or(callId) && Carries(d, e.arguments, fields)
    && fields != map[]
  }

  ghost predicate Later(d: Detector, events: seq<Event>, j: nat, callId: Option<string>) {
    exists k, other | j < k < |events| :: Keeps(d, events[k], callId, other)
  }

  /** The fields kept last under a call id. */
  ghost predicate LastKept(d: Detector, events: seq<Event>, callId: Option<string>, fields: Arguments) {
    exists j | 0 <= j < |events| :: Keeps(d, events[j], callId, fields) && !Later(d, events, j, callId)
  }

  /** The report of event e, when `before` went before it. */
  ghost predicate Reports(d: Detector, before: seq<Event>, e: Event, report: Event) {
    match e
    case ToolStarted(_, tool, arguments) =>
      && tool == "write" && report.ArtifactStarted? && report.artifact.status == "creating"
      && exists fields :: Carries(d, arguments, fields) && Describes(d, fields, false, report.artifact)
    case ToolResponse(callId, tool, isError) =>
      && tool == "write" && report.ArtifactCompleted?
      && report.artifact.status == (if isError then "error" else "ready")
      && exists fields :: LastKept(d, before, callId, fields) && Describes(d, fields, !isError, report.artifact)
    case _ => false
  }

  ghost predicate Describes(d: Detector, fields: Arguments, done: bool, a: Artifact) {
    Names(d, fields, a) && Tells(d, fields, done, a)
  }

  ghost predicate Reported(d: Detector, before: seq<Event>, e: Event) {
    exists report :: Reports(d, before, e, report)
  }

  predicate OfTools(e: Event) {
    e.ToolStarted? || e.ToolResponse? || e.ArtifactStarted? || e.ArtifactCompleted?
  }

  /** The tool and artifact events among these. */
  function Trace(events: seq<Event>): seq<Event> {
    if events == [] then []
    else
      var last := events[|events| - 1];
      Trace(events[..|events| - 1]) + if OfTools(last) then [last] else []
  }

  /** The trace is the tool events in order, each with its report right after it if it has one. */
  ghost predicate Traced(d: Detector, events: seq<Event>, trace: seq<Event>)
    decreases |events|
  {
    if events == [] then trace == []
    else
      var before, e, n := events[..|events| - 1], events[|events| - 1], |trace|;
      if Reported(d, before, e) then
        n >= 2 && trace[n - 2] == e && Reports(d, before, e, trace[n - 1]) && Traced(d, before, trace[..n - 2])
      else if OfTools(e) then n >= 1 && trace[n - 1] == e && Traced(d, before, trace[..n - 1])
      else Traced(d, before, trace)
  }

  /** A hook that lets tool events through as they are and makes no tool or artifact event of its own. */
  ghost predicate Transparent<S(!new)>(hook: Hook<S>) {
    forall s: S, e: Event :: Trace(hook(s, e).1) == Trace([e])
  }

  // ---- the arguments ----

  lemma {:induction false} PickedIsGiven(fields: Arguments, keys: seq<string>)
    ensures PickFirst(fields, keys).Some? ==> Given(fields, keys, PickFirst(fields, keys).value)
    ensures forall value | Given(fields, keys, value) :: PickFirst(fields, keys) == Some(value)
    decreases |keys|
  {
    if keys == [] {
    } else if keys[0] in fields {
    } else {
      var rest := keys[1..];
      PickedIsGiven(fields, rest);
      if PickFirst(fields, keys).Some? {
        var k :| 0 <= k < |rest| && rest[k] in fields && fields[rest[k]] == PickFirst(fields, rest).value
                 && forall j | 0 <= j < k :: rest[j] !in fields;
        assert keys[k + 1] == rest[k] && forall j | 1 <= j < k + 1 :: keys[j] == rest[j - 1];
      }
      forall value | Given(fields, keys, value) ensures Given(fields, rest, value) {
        var k :| 0 <= k < |keys| && keys[k] in fields && fields[keys[k]] == value
                 && forall j | 0 <= j < k :: keys[j] !in fields;
        assert rest[k - 1] == keys[k] && forall j | 0 <= j < k - 1 :: rest[j] == keys[j + 1];
      }
    }
  }

  lemma CarriedIsExtracted(d: Detector, arguments: Json)
    ensures var fields := ExtractWriteArguments(d, arguments);
            && (fields != map[] ==> Carries(d, arguments, fields))
            && forall other | Carries(d, arguments, other) :: other == fields
  {}

  lemma EndsInMore(path: string, name: string, c: char)
    requires EndsIn(path, name) && c != '/'
    ensures EndsIn(path + [c], name + [c])
  {
    var start := |path| - |name|;
    assert (path + [c])[start..] == path[start..] + [c];
  }

  lemma FileNameNext(path: string)
    requires path != ""
    ensures var before, c := path[..|path| - 1], path[|path| - 1];
            ArtifactPaths.FileName(path) == if c == '/' then "" else ArtifactPaths.FileName(before) + [c]
  {}

  lemma {:induction false} SplitEnds(path: string)
    ensures EndsIn(path, ArtifactPaths.FileName(path))
    decreases |path|
  {
    if path == "" {
    } else {
      var before, c := path[..|path| - 1], path[|path| - 1];
      SplitEnds(before);
      FileNameNext(path);
      hide ArtifactPaths.FileName;
      assert path == before + [c];
      if c == '/' {
        assert EndsIn(path, "");
      } else {
        EndsInMore(before, ArtifactPaths.FileName(before), c);
      }
    }
  }

  lemma NamesNothing(d: Detector, a: Artifact)
    ensures !Names(d, map[], a)
  {}

  /** What is built names the artifact and tells of it what the fields say; nothing is built when they name none. */
  lemma BuiltExactly(d: Detector, fields: Arguments, status: string, done: bool)
    ensures var built := BuildArtifact(d, fields, status, done);
            && (built.Some? ==> built.value.status == status)
            && (built.Some? && (status == "ready" || !done) ==> Describes(d, fields, done, built.value))
            && (built.None? ==> forall a :: !Names(d, fields, a))
  {
    PickedIsGiven(fields, PATH_KEYS);
    PickedIsGiven(fields, CONTENT_KEYS);
    hide Given, PickFirst, ArtifactPaths.NormalizeRelativePath, ArtifactPaths.FileName, EndsIn;
    var path := PickFirst(fields, PATH_KEYS);
    if DetectArtifact(d, path).Some? { SplitEnds(ArtifactPaths.NormalizeRelativePath(path.value.text).value); }
  }

  // ---- the cache ----

  ghost predicate Remembers(d: Detector, events: seq<Event>, cache: ArgumentCache) {
    forall callId: Option<string>, fields: Arguments ::
      LastKept(d, events, callId, fields) <==> CallKey(callId) in cache && cache[CallKey(callId)] == fields
  }

  lemma KeptNext(d: Detector, events: seq<Event>, e: Event, callId: Option<string>, fields: Arguments)
    ensures LastKept(d, events + [e], callId, fields) <==>
            if exists other :: Keeps(d, e, callId, other) then Keeps(d, e, callId, fields)
            else LastKept(d, events, callId, fields)
  {
    var all, n := events + [e], |events|;
    assert forall k | 0 <= k < n :: all[k] == events[k];
    hide Keeps;
    if exists other :: Keeps(d, e, callId, other) {
      var other :| Keeps(d, e, callId, other);
      forall j: nat | j < n ensures Later(d, all, j, callId) { assert Keeps(d, all[n], callId, other); }
      assert !Later(d, all, n, callId);
    } else {
      forall j: nat | j < n ensures Later(d, all, j, callId) <==> Later(d, events, j, callId) {
        LaterNext(d, events, e, j, callId);
      }
    }
  }

  lemma LaterNext(d: Detector, events: seq<Event>, e: Event, j: nat, callId: Option<string>)
    requires j < |events| && forall other :: !Keeps(d, e, callId, other)
    ensures Later(d, events + [e], j, callId) <==> Later(d, events, j, callId)
  {
    hide Keeps;
    var all := events + [e];
    if Later(d, events, j, callId) {
      var k, other :| j < k < |events| && Keeps(d, events[k], callId, other);
      assert Keeps(d, all[k], callId, other);
    }
  }

  lemma CacheNext(d: Detector, events: seq<Event>, cache: ArgumentCache, e: Event)
    requires Remembers(d, events, cache)
    ensures Remembers(d, events + [e], OnArtifact(d, cache, e).0)
  {
    var after := OnArtifact(d, cache, e).0;
    if e.ToolStarted? { CarriedIsExtracted(d, e.arguments); }
    hide Carries, ExtractWriteArguments, BuildArtifact, LastKept;
    forall callId: Option<string>, fields: Arguments
      ensures LastKept(d, events + [e], callId, fields) <==>
              CallKey(callId) in after && after[CallKey(callId)] == fields
    {
      KeptNext(d, events, e, callId, fields);
      if exists other :: Keeps(d, e, callId, other) {
        assert Keeps(d, e, callId, ExtractWriteArguments(d, e.arguments));
      } else if e.ToolStarted? && e.tool == "write" && CallKey(e.callId) == CallKey(callId) {
        assert ExtractWriteArguments(d, e.arguments) == map[] by {
          assert !Keeps(d, e, callId, ExtractWriteArguments(d, e.arguments));
        }
      }
    }
  }

  /** The artifact hook emits the report of its event, and nothing when there is none. */
  lemma ReportOfStart(d: Detector, before: seq<Event>, cache: ArgumentCache, e: Event)
    requires e.ToolStarted?
    ensures var out := OnArtifact(d, cache, e).1;
            if Reported(d, before, e) then |out| == 1 && Reports(d, before, e, out[0]) else out == []
  {
    var fields := ExtractWriteArguments(d, e.arguments);
    CarriedIsExtracted(d, e.arguments);
    BuiltExactly(d, fields, "creating", false);
    hide Carries, ExtractWriteArguments, BuildArtifact, Names, Tells;
    if fields == map[] { forall a ensures !Names(d, fields, a) { NamesNothing(d, a); } }
    var built := BuildArtifact(d, fields, "creating", false);
    if e.tool == "write" && built.Some? {
      assert Reports(d, before, e, ArtifactStarted(built.value));
    }
  }

  lemma ReportOfResponse(d: Detector, before: seq<Event>, cache: ArgumentCache, e: Event)
    requires e.ToolResponse? && Remembers(d, before, cache)
    ensures var out := OnArtifact(d, cache, e).1;
            if Reported(d, before, e) then |out| == 1 && Reports(d, before, e, out[0]) else out == []
  {
    var fields := Cached(cache, e.callId);
    var status := if e.isError then "error" else "ready";
    BuiltExactly(d, fields, status, !e.isError);
    hide BuildArtifact, Names, Tells, LastKept;
    if fields == map[] { forall a ensures !Names(d, fields, a) { NamesNothing(d, a); } }
    var built := BuildArtifact(d, fields, status, !e.isError);
    if e.tool == "write" && built.Some? {
      assert LastKept(d, before, e.callId, fields);
      assert Reports(d, before, e, ArtifactCompleted(built.value));
    }
  }

  // ---- the trace ----

  lemma {:induction false} TraceConcat(a: seq<Event>, b: seq<Event>)
    ensures Trace(a + b) == Trace(a) + Trace(b)
    decreases |b|
  {
    if b == [] {
      assert a + b == a;
    } else {
      assert (a + b)[..|a + b| - 1] == a + b[..|b| - 1];
      TraceConcat(a, b[..|b| - 1]);
    }
  }

  lemma TraceOne(e: Event)
    ensures Trace([e]) == if OfTools(e) then [e] else []
    ensures Trace([]) == []
  {
    assert [e][..0] == [];
  }

  lemma {:induction false} TraceSurvivesErase(events: seq<Event>)
    ensures Trace(Erase(events)) == Trace(events)
    decreases |events|
  {
    hide *;
    if events == [] {
      NothingErased();
    } else {
      var before, last := events[..|events| - 1], events[|events| - 1];
      assert events == before + [last];
      TraceSurvivesErase(before);
      TraceConcat(before, [last]);
      EraseStep(before, last);
      TraceConcat(Erase(before), Kept(last));
      TraceOfKept(last);
    }
  }

  lemma TraceOfKept(e: Event)
    ensures Trace(Kept(e)) == Trace([e])
  {
    TraceOne(e);
  }

  /** What feeding one more event adds to the trace: the event itself and its report. */
  lemma TraceNext<S(!new)>(d: Detector, hook: Hook<S>, p: Pipe<S>, events: seq<Event>, e: Event)
    requires Transparent(hook) && Remembers(d, events, p.cache) && Traced(d, events, Trace(p.mid))
    requires !e.ArtifactStarted? && !e.ArtifactCompleted?
    ensures var q := Feed(d, hook, p, e);
            Remembers(d, events + [e], q.cache) && Traced(d, events + [e], Trace(q.mid))
  {
    hide *;
    CacheNext(d, events, p.cache, e);
    var out := OnArtifact(d, p.cache, e).1;
    ReportOf(d, events, p.cache, e);
    FeedTrace(d, hook, p, e);
    TracedNext(d, events, Trace(p.mid), e, out);
  }

  lemma FeedTrace<S(!new)>(d: Detector, hook: Hook<S>, p: Pipe<S>, e: Event)
    requires Transparent(hook)
    ensures var q, out := Feed(d, hook, p, e), OnArtifact(d, p.cache, e);
            q.cache == out.0 && Trace(q.mid) == Trace(p.mid) + Trace([e]) + Trace(out.1)
  {
    hide Trace, OnArtifact;
    var hooked, out := hook(p.state, e).1, OnArtifact(d, p.cache, e).1;
    TraceConcat(p.mid, hooked + out);
    TraceConcat(hooked, out);
    Assoc(Trace(p.mid), Trace([e]), Trace(out));
  }

  ghost predicate IsReport(d: Detector, before: seq<Event>, e: Event, out: seq<Event>) {
    if Reported(d, before, e) then |out| == 1 && Reports(d, before, e, out[0]) else out == []
  }

  lemma ReportOf(d: Detector, before: seq<Event>, cache: ArgumentCache, e: Event)
    requires Remembers(d, before, cache)
    ensures IsReport(d, before, e, OnArtifact(d, cache, e).1)
  {
    if e.ToolStarted? {
      ReportOfStart(d, before, cache, e);
    } else if e.ToolResponse? {
      ReportOfResponse(d, before, cache, e);
    }
    hide Reports, BuildArtifact, ExtractWriteArguments;
    if !e.ToolStarted? && !e.ToolResponse? { NoReport(d, before, e); }
  }

  lemma NoReport(d: Detector, before: seq<Event>, e: Event)
    requires !e.ToolStarted? && !e.ToolResponse?
    ensures !Reported(d, before, e)
  {}

  lemma ReportIsArtifact(d: Detector, before: seq<Event>, e: Event, report: Event)
    requires Reports(d, before, e, report)
    ensures OfTools(e) && OfTools(report)
  {}

  lemma TracedOf(d: Detector, before: seq<Event>, e: Event, trace: seq<Event>)
    ensures Traced(d, before + [e], trace) <==>
            var n := |trace|;
            if Reported(d, before, e) then
              n >= 2 && trace[n - 2] == e && Reports(d, before, e, trace[n - 1]) && Traced(d, before, trace[..n - 2])
            else if OfTools(e) then n >= 1 && trace[n - 1] == e && Traced(d, before, trace[..n - 1])
            else Traced(d, before, trace)
  {
    hide Reports, OfTools, Reported;
    var all := before + [e];
    assert all[..|all| - 1] == before && all[|all| - 1] == e;
  }

  lemma TracedNext(d: Detector, before: seq<Event>, trace: seq<Event>, e: Event, out: seq<Event>)
    requires Traced(d, before, trace) && IsReport(d, before, e, out)
    ensures Traced(d, before + [e], trace + Trace([e]) + Trace(out))
  {
    TracedOf(d, before, e, trace + Trace([e]) + Trace(out));
    hide Reports, OfTools, Trace, Reported, Traced;
    TraceOne(e);
    if Reported(d, before, e) {
      ReportIsArtifact(d, before, e, out[0]);
      TraceOne(out[0]);
      assert out == [out[0]];
      assert (trace + [e] + out)[..|trace|] == trace;
    } else {
      assert (trace + [e])[..|trace|] == trace;
      assert trace + [] + [] == trace && trace + [e] + [] == trace + [e];
    }
  }

  lemma NothingTraced<S>(d: Detector, hook: Hook<S>, begin: S)
    ensures var p := Pipeline(d, hook, begin, []); Traced(d, [], Trace(p.mid)) && Remembers(d, [], p.cache)
  {}

  lemma {:induction false} PipelineTraced<S(!new)>(d: Detector, hook: Hook<S>, begin: S, events: seq<Event>)
    requires Transparent(hook)
    requires forall e | e in events :: !e.ArtifactStarted? && !e.ArtifactCompleted?
    ensures var p := Pipeline(d, hook, begin, events); Traced(d, events, Trace(p.mid)) && Remembers(d, events, p.cache)
    decreases |events|
  {
    hide *;
    if events == [] {
      NothingTraced(d, hook, begin);
    } else {
      var before, e := events[..|events| - 1], events[|events| - 1];
      PipelineTraced(d, hook, begin, before);
      assert e in events && events == before + [e];
      FeedStep(d, hook, begin, before, e);
      TraceNext(d, hook, Pipeline(d, hook, begin, before), before, e);
    }
  }

  /**
   The tool and artifact events of a turn's output: every call and response that is not a repeated start, in order,
   and right behind it its report if it is of `write` and names an artifact.
   */
  lemma OutputTraced<S(!new)>(d: Detector, hook: Hook<S>, begin: S, mapped: seq<Event>, failed: bool)
    requires Transparent(hook)
    requires forall e | e in mapped :: !e.ArtifactStarted? && !e.ArtifactCompleted?
    ensures Traced(d, Dedup(mapped), Trace(TurnOutput(Pipeline(d, hook, begin, Dedup(mapped)).mid, failed)))
  {
    hide *;
    RunTurnProofs.DedupMembers(mapped);
    PipelineTraced(d, hook, begin, Dedup(mapped));
    var mid := Pipeline(d, hook, begin, Dedup(mapped)).mid;
    RunTurnProofs.ErasedOutput(mid, failed);
    TraceSurvivesErase(mid);
    TraceSurvivesErase(TurnOutput(mid, failed));
  }
}
