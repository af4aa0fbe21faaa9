/**
 The path an artifact is known by (artifact_detector.py): stripped, with forward slashes and without empty or "."
 parts; a path that has no part left or climbs with ".." names no artifact.
 */
module ArtifactPaths {
  import opened Text

  function Slashes(s: string): string {
    seq(|s|, i requires 0 <= i < |s| => if s[i] == '\\' then '/' else s[i])
  }

  function Split(s: string): (parts: seq<string>)
    ensures parts != []
  {
    if s == "" then [""]
    else
      var before, c := Split(s[..|s| - 1]), s[|s| - 1];
      if c == '/' then before + [""] else before[|before| - 1 := before[|before| - 1] + [c]]
  }

  /** The parts that name something. */
  function Named(parts: seq<string>): seq<string> {
    if parts == [] then []
    else
      var last := parts[|parts| - 1];
      Named(parts[..|parts| - 1]) + if last == "" || last == "." then [] else [last]
  }

  function Join(parts: seq<string>): string {
    if parts == [] then ""
    else if |parts| == 1 then parts[0]
    else Join(parts[..|parts| - 1]) + "/" + parts[|parts| - 1]
  }

  function Rendered(absolute: bool, parts: seq<string>): string {
    if absolute then "/" + Join(parts) else Join(parts)
  }

  function NormalizeRelativePath(text: string): Option<string> {
    if Strip(text) == "" then None
    else
      var path := Slashes(Strip(text));
      var parts := Named(Split(path));
      if parts == [] || ".." in parts then None else Some(Rendered(path[0] == '/', parts))
  }

  /** The name at the end of a path. */
  function FileName(path: string): string {
    var parts := Split(path);
    parts[|parts| - 1]
  }

  // ---- what a normalised path looks like ----

  predicate CleanPart(part: string) {
    part != "" && part != "." && part != ".." && '/' !in part && '\\' !in part
  }

  predicate AllClean(parts: seq<string>) {
    parts != [] && forall i | 0 <= i < |parts| :: CleanPart(parts[i])
  }

  lemma {:induction false} SplitParts(s: string)
    ensures forall i | 0 <= i < |Split(s)| :: '/' !in Split(s)[i] && forall c | c in Split(s)[i] :: c in s
    decreases |s|
  {
    if s == "" {
    } else {
      var before, c := s[..|s| - 1], s[|s| - 1];
      SplitParts(before);
      assert s == before + [c];
    }
  }

  lemma {:induction false} NamedParts(parts: seq<string>)
    ensures forall p | p in Named(parts) :: p in parts && p != "" && p != "."
    decreases |parts|
  {
    if parts == [] {
    } else {
      NamedParts(parts[..|parts| - 1]);
    }
  }

  /** A normalised path is made of clean parts: never empty, "." or "..", and free of separators of either kind. */
  lemma NormalizedIsClean(text: string) returns (absolute: bool, parts: seq<string>)
    requires NormalizeRelativePath(text).Some?
    ensures AllClean(parts) && NormalizeRelativePath(text) == Some(Rendered(absolute, parts))
  {
    var path := Slashes(Strip(text));
    absolute, parts := path[0] == '/', Named(Split(path));
    SplitParts(path);
    NamedParts(Split(path));
    hide Strip, Split, Named, Join;
    forall i | 0 <= i < |parts| ensures CleanPart(parts[i]) {
      assert parts[i] in parts;
    }
  }

  // ---- splitting what was joined ----

  lemma {:induction false} SplitNoSlash(s: string, t: string)
    requires '/' !in t
    ensures var a := Split(s); Split(s + t) == a[|a| - 1 := a[|a| - 1] + t]
    decreases |t|
  {
    var a := Split(s);
    if t == "" {
      assert s + t == s && a[|a| - 1] + "" == a[|a| - 1];
    } else {
      var before, c := t[..|t| - 1], t[|t| - 1];
      SplitNoSlash(s, before);
      assert (s + t)[..|s + t| - 1] == s + before;
      assert a[|a| - 1] + before + [c] == a[|a| - 1] + t;
    }
  }

  lemma SplitSlash(s: string, part: string)
    requires '/' !in part
    ensures Split(s + "/" + part) == Split(s) + [part]
  {
    assert (s + "/")[..|s|] == s;
    assert Split(s + "/") == Split(s) + [""];
    SplitNoSlash(s + "/", part);
    assert "" + part == part;
  }

  lemma {:induction false} SplitJoin(parts: seq<string>)
    requires AllClean(parts)
    ensures Split(Join(parts)) == parts && Join(parts) != "" && Join(parts)[0] == parts[0][0]
    decreases |parts|
  {
    var before, last := parts[..|parts| - 1], parts[|parts| - 1];
    assert parts == before + [last];
    if before == [] {
      SplitNoSlash("", last);
      assert "" + last == last;
    } else {
      SplitJoin(before);
      SplitSlash(Join(before), last);
    }
  }

  lemma {:induction false} NamedClean(parts: seq<string>, n: nat)
    requires AllClean(parts) && n <= |parts|
    ensures Named(parts[..n]) == parts[..n] && Named([""] + parts[..n]) == parts[..n]
    decreases n
  {
    if n == 0 {
      assert [""][..0] == [] && [""] + parts[..0] == [""];
    } else {
      NamedClean(parts, n - 1);
      assert parts[..n][..n - 1] == parts[..n - 1];
      assert ([""] + parts[..n])[..n] == [""] + parts[..n - 1];
      assert parts[..n] == parts[..n - 1] + [parts[n - 1]];
    }
  }

  lemma {:induction false} JoinedHasNoBackslash(parts: seq<string>)
    requires AllClean(parts)
    ensures '\\' !in Join(parts)
    decreases |parts|
  {
    if |parts| == 1 {
    } else {
      JoinedHasNoBackslash(parts[..|parts| - 1]);
    }
  }

  lemma {:induction false} SplitAbsolute(s: string)
    ensures Split("/" + s) == [""] + Split(s)
    decreases |s|
  {
    if s == "" {
      assert "/" + s == "/" && "/"[..0] == "";
    } else {
      SplitAbsolute(s[..|s| - 1]);
      assert ("/" + s)[..|s|] == "/" + s[..|s| - 1];
    }
  }

  lemma SlashesSame(s: string)
    requires '\\' !in s
    ensures Slashes(s) == s
  {}

  lemma RenderedSplits(absolute: bool, parts: seq<string>)
    requires AllClean(parts)
    ensures var r := Rendered(absolute, parts);
            && Named(Split(r)) == parts && r != "" && (r[0] == '/' <==> absolute)
            && '\\' !in r && ".." !in parts
  {
    SplitJoin(parts);
    JoinedHasNoBackslash(parts);
    SplitAbsolute(Join(parts));
    NamedClean(parts, |parts|);
    assert parts[..|parts|] == parts && [""] + parts[..|parts|] == [""] + parts;
    assert parts[0][0] != '/' by { assert parts[0][0] in parts[0]; }
    hide Split, Named, Join;
  }

  lemma CleanReadsBack(absolute: bool, parts: seq<string>)
    requires AllClean(parts) && Strip(Rendered(absolute, parts)) == Rendered(absolute, parts)
    ensures NormalizeRelativePath(Rendered(absolute, parts)) == Some(Rendered(absolute, parts))
  {
    RenderedSplits(absolute, parts);
    SlashesSame(Rendered(absolute, parts));
    hide Split, Named, Strip, Slashes, Rendered;
    assert parts != [];
  }

  // ---- a normalised path is never longer than what it was made from ----

  function Size(parts: seq<string>): nat {
    if parts == [] then 0 else Size(parts[..|parts| - 1]) + |parts[|parts| - 1]| + 1
  }

  lemma SizeSnoc(parts: seq<string>, part: string)
    ensures Size(parts + [part]) == Size(parts) + |part| + 1
  {
    assert (parts + [part])[..|parts|] == parts;
  }

  lemma SplitSizeNext(before: seq<string>, c: char)
    requires before != []
    ensures Size(before + [""]) == Size(before) + 1
    ensures Size(before[|before| - 1 := before[|before| - 1] + [c]]) == Size(before) + 1
  {
    hide *;
    var init, last := before[..|before| - 1], before[|before| - 1];
    assert before == init + [last];
    SizeSnoc(init, last);
    SizeSnoc(before, "");
    SizeSnoc(init, last + [c]);
    assert before[|before| - 1 := last + [c]] == init + [last + [c]];
  }

  lemma {:induction false} SplitSize(s: string)
    ensures Size(Split(s)) == |s| + 1
    decreases |s|
  {
    if s == "" {
      SizeSnoc([], "");
      assert [] + [""] == [""];
    } else {
      SplitSize(s[..|s| - 1]);
      SplitSizeNext(Split(s[..|s| - 1]), s[|s| - 1]);
      hide Size;
    }
  }

  lemma {:induction false} NamedSize(parts: seq<string>)
    ensures Size(Named(parts)) + (if parts != [] && parts[0] == "" then 1 else 0) <= Size(parts)
    decreases |parts|
  {
    if parts == [] {
    } else {
      var before, last := parts[..|parts| - 1], parts[|parts| - 1];
      NamedSize(before);
      SizeSnoc(Named(before), last);
      assert Named(before) + [] == Named(before);
    }
  }

  lemma {:induction false} JoinSize(parts: seq<string>)
    requires parts != []
    ensures |Join(parts)| + 1 == Size(parts)
    decreases |parts|
  {
    if |parts| == 1 {
      SizeSnoc([], parts[0]);
      assert [] + [parts[0]] == parts;
    } else {
      JoinSize(parts[..|parts| - 1]);
    }
  }

  lemma NeverLonger(text: string)
    requires NormalizeRelativePath(text).Some?
    ensures |NormalizeRelativePath(text).value| <= |Strip(text)|
  {
    var path := Slashes(Strip(text));
    SplitSize(path);
    NamedSize(Split(path));
    JoinSize(Named(Split(path)));
    if path[0] == '/' {
      SplitAbsolute(path[1..]);
      assert path == "/" + path[1..];
    }
    hide Split, Named, Strip, Size;
  }

  lemma {:induction false} StripRightShortens(s: string)
    ensures |StripRight(s)| <= |s| && (StripRight(s) != s ==> |StripRight(s)| < |s|)
    decreases |s|
  {
    if s == "" || !IsSpace(s[|s| - 1]) {
    } else {
      StripRightShortens(s[..|s| - 1]);
    }
  }

  lemma {:induction false} StripLeftShortens(s: string)
    ensures |StripLeft(s)| <= |s| && (StripLeft(s) != s ==> |StripLeft(s)| < |s|)
    decreases |s|
  {
    if s == "" || !IsSpace(s[0]) {
    } else {
      StripLeftShortens(s[1..]);
    }
  }

  /** Normalising again changes nothing if and only if the normalised path has no white space at its ends. */
  lemma NormalizedAgainExactly(text: string)
    requires NormalizeRelativePath(text).Some?
    ensures var r := NormalizeRelativePath(text).value;
            NormalizeRelativePath(r) == Some(r) <==> Strip(r) == r
  {
    var absolute, parts := NormalizedIsClean(text);
    var r := NormalizeRelativePath(text).value;
    hide NormalizeRelativePath, Rendered, AllClean, StripLeft, StripRight;
    if Strip(r) == r {
      CleanReadsBack(absolute, parts);
    } else {
      StripLeftShortens(r);
      StripRightShortens(StripLeft(r));
      if NormalizeRelativePath(r).Some? { NeverLonger(r); }
    }
  }

  lemma NamedAfterDot(part: string)
    requires CleanPart(part)
    ensures Named([".", part]) == [part]
  {
    assert [".", part][..1] == ["."] && ["."][..0] == [];
    assert Named(["."]) == [];
    assert [] + [part] == [part];
  }

  lemma DotSplits(part: string)
    requires CleanPart(part)
    ensures Named(Split("./" + part)) == [part] && Slashes("./" + part) == "./" + part
  {
    SplitNoSlash("", ".");
    assert "" + "." == "." && "./" + part == "." + "/" + part;
    SplitSlash(".", part);
    NamedAfterDot(part);
    hide Split, Named;
    assert ["."] + [part] == [".", part];
  }

  lemma DotNormalizes(part: string)
    requires CleanPart(part) && !IsSpace(part[|part| - 1])
    ensures NormalizeRelativePath("./" + part) == Some(part)
  {
    var text := "./" + part;
    assert text[0] == '.' && text[|text| - 1] == part[|part| - 1];
    StripOfStripped(text);
    DotSplits(part);
    hide Split, Named, Strip, Slashes;
    assert ".." !in [part];
  }

  /** A "." part hides the white space behind it: `./` and a name that starts with a space. */
  lemma HiddenSpace(part: string)
    requires CleanPart(part) && IsSpace(part[0]) && !IsSpace(part[|part| - 1])
    ensures NormalizeRelativePath("./" + part) == Some(part) && NormalizeRelativePath(part) != Some(part)
  {
    DotNormalizes(part);
    NormalizedAgainExactly("./" + part);
    StripStrips(part);
    hide NormalizeRelativePath, Strip;
  }

  // ---- which parts are kept ----

  lemma JoinOneMore(parts: seq<string>, part: string)
    ensures Join(parts + [part]) == if parts == [] then part else Join(parts) + "/" + part
  {
    var all := parts + [part];
    assert all[..|all| - 1] == parts;
  }

  lemma JoinLonger(parts: seq<string>, c: char)
    requires parts != []
    ensures var last := parts[|parts| - 1]; Join(parts[|parts| - 1 := last + [c]]) == Join(parts) + [c]
  {
    var before, last := parts[..|parts| - 1], parts[|parts| - 1];
    assert parts == before + [last] && parts[|parts| - 1 := last + [c]] == before + [last + [c]];
    hide Join;
    JoinOneMore(before, last);
    JoinOneMore(before, last + [c]);
    assert before != [] ==> Join(before) + "/" + (last + [c]) == Join(before) + "/" + last + [c];
  }

  /** Splitting a path takes nothing away from it. */
  lemma {:induction false} SplitJoins(s: string)
    ensures Join(Split(s)) == s
    decreases |s|
  {
    if s == "" {
    } else {
      var before, c := s[..|s| - 1], s[|s| - 1];
      SplitJoins(before);
      assert s == before + [c];
      hide Join;
      if c == '/' {
        JoinOneMore(Split(before), "");
      } else {
        JoinLonger(Split(before), c);
      }
    }
  }

  predicate Names(part: string) {
    part != "" && part != "."
  }

  /** The parts that name something stand at these places. */
  ghost predicate NamesAt(parts: seq<string>, kept: seq<string>, at: seq<nat>) {
    && |kept| == |at| && Rising(at)
    && (forall i | 0 <= i < |at| :: at[i] < |parts| && kept[i] == parts[at[i]])
    && forall k: nat :: k in at <==> k < |parts| && Names(parts[k])
  }

  lemma NamesNext(parts: seq<string>, kept: seq<string>, at: seq<nat>, part: string)
    requires NamesAt(parts, kept, at)
    ensures var named := Names(part);
            NamesAt(parts + [part], if named then kept + [part] else kept, if named then at + [|parts|] else at)
  {
    hide Names, Rising;
    RisingMore(at, |parts|);
    var all := parts + [part];
    assert all[|parts|] == part && forall k | 0 <= k < |parts| :: all[k] == parts[k];
  }

  lemma NothingNamed()
    ensures NamesAt([], Named([]), [])
  {}

  lemma {:induction false} NamedAt(parts: seq<string>) returns (at: seq<nat>)
    ensures NamesAt(parts, Named(parts), at)
    decreases |parts|
  {
    hide NamesAt;
    if parts == [] {
      at := [];
      NothingNamed();
    } else {
      var before, last := parts[..|parts| - 1], parts[|parts| - 1];
      at := NamedAt(before);
      assert parts == before + [last];
      NamesNext(before, Named(before), at, last);
      if Names(last) {
        at := at + [|before|];
      } else {
        assert Named(before) + [] == Named(before);
      }
    }
  }

  /** The parts of the text between its slashes of either kind, once white space is off its ends. */
  ghost predicate PartsOf(text: string, parts: seq<string>) {
    && parts != [] && (forall i | 0 <= i < |parts| :: '/' !in parts[i])
    && |Join(parts)| == |Strip(text)|
    && forall i | 0 <= i < |Strip(text)| :: Join(parts)[i] == if Strip(text)[i] == '\\' then '/' else Strip(text)[i]
  }

  /**
   A path is usable exactly when some part of it names something and none climbs; it is then known by those of its
   parts that name something, in order, absolute if it began with a slash.
   */
  lemma NormalizedExactly(text: string) returns (parts: seq<string>, kept: seq<string>, at: seq<nat>)
    ensures PartsOf(text, parts) && NamesAt(parts, kept, at)
    ensures NormalizeRelativePath(text) ==
            if Strip(text) == "" || kept == [] || ".." in kept then None
            else Some(Rendered(Strip(text)[0] in {'/', '\\'}, kept))
  {
    var path := Slashes(Strip(text));
    parts := Split(path);
    kept := Named(parts);
    SplitParts(path);
    SplitJoins(path);
    at := NamedAt(parts);
    hide Strip, Split, Named, Join, NamesAt;
  }
}
