/** Text helpers shared by the models: optional values, substring search and decimal rendering. */
module Text {

  datatype Option<+T> = None | Some(value: T)

  /** The text, or "" for a missing one. */
  function Or(text: Option<string>): string {
    if text.Some? then text.value else ""
  }

  /** Places in order, none twice. */
  predicate Rising(at: seq<nat>) {
    forall i, j | 0 <= i < j < |at| :: at[i] < at[j]
  }

  lemma RisingMore(at: seq<nat>, n: nat)
    requires Rising(at) && forall k: nat | k in at :: k < n
    ensures Rising(at + [n]) && forall k: nat :: k in at + [n] <==> k in at || k == n
  {
    forall i | 0 <= i < |at| ensures at[i] < n { assert at[i] in at; }
  }

  /** The places below n where `keep` holds, in order. */
  ghost predicate Picks(at: seq<nat>, n: nat, keep: nat -> bool) {
    && Rising(at)
    && forall k: nat :: k in at <==> k < n && keep(k)
  }

  lemma PicksNext(at: seq<nat>, n: nat, keep: nat -> bool)
    requires Picks(at, n, keep)
    ensures Picks(if keep(n) then at + [n] else at, n + 1, keep)
  {
    hide Rising;
    RisingMore(at, n);
  }

  predicate HasAt(hay: string, needle: string, i: nat) {
    i + |needle| <= |hay| && hay[i..i + |needle|] == needle
  }

  /** The source's `needle in hay`. */
  predicate Contains(hay: string, needle: string) {
    exists i: nat | i <= |hay| :: HasAt(hay, needle, i)
  }

  lemma ContainsExtends(left: string, hay: string, right: string, needle: string)
    requires Contains(hay, needle)
    ensures Contains(left + hay + right, needle)
  {
    var i: nat :| i <= |hay| && HasAt(hay, needle, i);
    var whole := left + hay + right;
    assert whole[|left| + i..|left| + i + |needle|] == hay[i..i + |needle|];
    assert HasAt(whole, needle, |left| + i);
  }

  /** A needle without the separator cannot straddle it. */
  lemma ContainsSplits(left: string, sep: char, right: string, needle: string)
    requires sep !in needle
    requires Contains(left + [sep] + right, needle)
    ensures Contains(left, needle) || Contains(right, needle)
  {
    var whole := left + [sep] + right;
    var i: nat :| i <= |whole| && HasAt(whole, needle, i);
    assert forall k | 0 <= k < |needle| :: needle[k] == whole[i..i + |needle|][k] == whole[i + k];
    assert whole[|left|] == sep;
    assert forall m | i <= m < i + |needle| :: whole[m] == needle[m - i] != sep;
    if i + |needle| <= |left| {
      assert left[i..i + |needle|] == whole[i..i + |needle|];
      assert HasAt(left, needle, i);
    } else if i > |left| {
      var j := i - |left| - 1;
      assert right[j..j + |needle|] == whole[i..i + |needle|];
      assert HasAt(right, needle, j);
    } else {
      assert false;
    }
  }

  function Digit(n: nat): char
    requires n < 10
  {
    "0123456789"[n]
  }

  function Decimal(n: nat): string {
    if n < 10 then [Digit(n)] else Decimal(n / 10) + [Digit(n % 10)]
  }

  /** White space as `str.strip` sees it. */
  predicate IsSpace(c: char) {
    var n := c as int;
    9 <= n <= 13 || 28 <= n <= 32 || n == 0x85 || n == 0xA0 || n == 0x1680 || 0x2000 <= n <= 0x200A
    || n == 0x2028 || n == 0x2029 || n == 0x202F || n == 0x205F || n == 0x3000
  }

  function StripLeft(s: string): string {
    if s != "" && IsSpace(s[0]) then StripLeft(s[1..]) else s
  }

  function StripRight(s: string): string {
    if s != "" && IsSpace(s[|s| - 1]) then StripRight(s[..|s| - 1]) else s
  }

  function Strip(s: string): string {
    StripRight(StripLeft(s))
  }

  predicate Stripped(s: string) {
    s != "" ==> !IsSpace(s[0]) && !IsSpace(s[|s| - 1])
  }

  lemma {:induction false} StripRightKeepsHead(s: string)
    requires s != "" ==> !IsSpace(s[0])
    ensures Stripped(StripRight(s)) && StripRight(s) <= s
  {
    if s == "" || !IsSpace(s[|s| - 1]) {
    } else {
      StripRightKeepsHead(s[..|s| - 1]);
    }
  }

  lemma {:induction false} StripLeftHead(s: string)
    ensures StripLeft(s) != "" ==> !IsSpace(StripLeft(s)[0])
  {
    if s == "" || !IsSpace(s[0]) {
    } else {
      StripLeftHead(s[1..]);
    }
  }

  lemma StripStrips(s: string)
    ensures Stripped(Strip(s))
  {
    StripLeftHead(s);
    StripRightKeepsHead(StripLeft(s));
  }

  predicate AllSpace(s: string) {
    forall i | 0 <= i < |s| :: IsSpace(s[i])
  }

  lemma {:induction false} StripLeftSplits(s: string) returns (lead: string)
    ensures AllSpace(lead) && s == lead + StripLeft(s)
    decreases |s|
  {
    if s == "" || !IsSpace(s[0]) {
      lead := "";
    } else {
      var more := StripLeftSplits(s[1..]);
      lead := [s[0]] + more;
    }
  }

  lemma {:induction false} StripRightSplits(s: string) returns (tail: string)
    ensures AllSpace(tail) && s == StripRight(s) + tail
    decreases |s|
  {
    if s == "" || !IsSpace(s[|s| - 1]) {
      tail := "";
    } else {
      var more := StripRightSplits(s[..|s| - 1]);
      tail := more + [s[|s| - 1]];
    }
  }

  /** Stripping takes white space off the ends and nothing else. */
  lemma StripSplits(s: string) returns (lead: string, tail: string)
    ensures AllSpace(lead) && AllSpace(tail) && s == lead + Strip(s) + tail && Stripped(Strip(s))
  {
    lead := StripLeftSplits(s);
    tail := StripRightSplits(StripLeft(s));
    StripStrips(s);
  }

  lemma StripOfStripped(s: string)
    requires Stripped(s)
    ensures Strip(s) == s
  {}
}
