/**
 The string primitives the routers rely on: `String.prototype.startsWith`
 (Dafny's prefix relation `<=`), `String.prototype.replace` with a string
 pattern (first occurrence only), and the one-layer quote strip
 `value.replace(/^['"](.*)['"]$/, '$1')`.
 */
module JsText {
  import opened Wrappers

  /** `p` occurs in `s` starting at index `i`. */
  predicate OccursAt(s: string, p: string, i: nat) {
    i + |p| <= |s| && s[i..i + |p|] == p
  }

  /** The first index at or after `from` where `p` occurs in `s`, as `indexOf` finds it. */
  function IndexOfFrom(s: string, p: string, from: nat): (r: Option<nat>)
    requires from <= |s|
    ensures r.Some? ==> from <= r.value && OccursAt(s, p, r.value)
    ensures r.Some? ==> forall j :: from <= j < r.value ==> !OccursAt(s, p, j)
    ensures r.None? ==> forall j :: from <= j ==> !OccursAt(s, p, j)
    decreases |s| - from
  {
    if OccursAt(s, p, from) then Some(from)
    else if from == |s| then None
    else IndexOfFrom(s, p, from + 1)
  }

  function IndexOf(s: string, p: string): (r: Option<nat>)
    ensures r.Some? ==> OccursAt(s, p, r.value) && forall j :: 0 <= j < r.value ==> !OccursAt(s, p, j)
    ensures r.None? ==> forall j: nat :: !OccursAt(s, p, j)
  {
    IndexOfFrom(s, p, 0)
  }

  /**
   `s.replace(p, '')`: removes the first occurrence of `p`, wherever it lies;
   text without an occurrence is returned unchanged.
   */
  function ReplaceFirst(s: string, p: string): (r: string)
    ensures IndexOf(s, p).None? ==> r == s
    ensures IndexOf(s, p).Some? ==>
      var i := IndexOf(s, p).value;
      i <= |r| && |r| == |s| - |p| && s == r[..i] + p + r[i..]
    ensures IndexOf(s, p).Some? ==>
      var i := IndexOf(s, p).value;
      i <= |r| && r[..i] == s[..i] && r[i..] == s[i + |p|..]
  {
    match IndexOf(s, p)
    case None => s
    case Some(i) =>
      var r := s[..i] + s[i + |p|..];
      assert s == r[..i] + p + r[i..] by {
        assert r[..i] == s[..i];
        assert r[i..] == s[i + |p|..];
        assert s == s[..i] + s[i..i + |p|] + s[i + |p|..];
      }
      r
  }

  /** When the text starts with the pattern, replacing it is the anchored strip. */
  lemma ReplaceFirstAtStart(s: string, p: string)
    requires p <= s
    ensures ReplaceFirst(s, p) == s[|p|..]
  {
    assert OccursAt(s, p, 0);
    var r := ReplaceFirst(s, p);
    assert s == r[..0] + p + r[0..];
  }

  /** When `r` from index `i` on is `s` from `i + |p|` on, an occurrence in `s` at or after `i + |p|` is one in `r`, `|p|` earlier. */
  lemma ShiftedOccurrence(s: string, r: string, p: string, i: nat, j: nat)
    requires i <= j && i <= |r| && i + |p| <= |s| && r[i..] == s[i + |p|..]
    requires OccursAt(s, p, j + |p|)
    ensures OccursAt(r, p, j)
  {
    var k := |p|;
    assert |r| - i == |s| - i - k;
    forall t | 0 <= t < k
      ensures r[j..j + k][t] == p[t]
    {
      assert r[j + t] == r[i..][j + t - i];
      assert s[j + k + t] == s[i + k..][j + t - i];
      assert s[j + k + t] == s[j + k..j + k + k][t];
    }
  }

  /**
   Only the first occurrence goes: every later occurrence that does not overlap
   it stays, shifted left by the pattern's length.
   */
  lemma ReplaceFirstKeepsLaterOccurrences(s: string, p: string, i: nat)
    requires IndexOf(s, p) == Some(i)
    ensures var r := ReplaceFirst(s, p);
      forall j: nat :: i <= j && OccursAt(s, p, j + |p|) ==> OccursAt(r, p, j)
  {
    var r := ReplaceFirst(s, p);
    assert i <= |r| && r[i..] == s[i + |p|..];
    forall j: nat | i <= j && OccursAt(s, p, j + |p|)
      ensures OccursAt(r, p, j)
    {
      ShiftedOccurrence(s, r, p, i, j);
    }
  }

  /** The pattern is not anchored: "$>" inside "say $>x" is removed from the middle. */
  lemma ReplaceFirstNotAnchored()
    ensures ReplaceFirst("say $>x", "$>") == "say x"
  {
    var s := "say $>x";
    assert OccursAt(s, "$>", 4);
    assert s[0] == 's' && s[1] == 'a' && s[2] == 'y' && s[3] == ' ';
    assert !OccursAt(s, "$>", 0) && !OccursAt(s, "$>", 1);
    assert !OccursAt(s, "$>", 2) && !OccursAt(s, "$>", 3);
    var r := ReplaceFirst(s, "$>");
    assert s == r[..4] + "$>" + r[4..];
  }

  /** Characters that JavaScript's `.` in a regular expression does not match. */
  predicate IsLineTerminator(c: char) {
    c == '\n' || c == '\r' || c == '\U{2028}' || c == '\U{2029}'
  }

  predicate IsQuote(c: char) {
    c == '\'' || c == '"'
  }

  /**
   The text matches `/^['"](.*)['"]$/`: at least two characters, first and
   last each a single or double quote (they need not agree), and no line
   terminator in between.
   */
  predicate QuoteWrapped(s: string) {
    && |s| >= 2
    && IsQuote(s[0])
    && IsQuote(s[|s| - 1])
    && forall i :: 1 <= i < |s| - 1 ==> !IsLineTerminator(s[i])
  }

  /** `value.replace(/^['"](.*)['"]$/, '$1')`: one outer quote layer removed, if there is one. */
  function Unquote(s: string): (r: string)
    ensures (r == s) <==> !QuoteWrapped(s)
    ensures QuoteWrapped(s) ==> s == [s[0]] + r + [s[|s| - 1]]
    ensures |r| <= |s|
  {
    if QuoteWrapped(s) then s[1..|s| - 1] else s
  }

  /** Wrapping a line of text in any two quote characters and unquoting gives the text back. */
  lemma UnquoteWrap(open: char, inner: string, close: char)
    requires IsQuote(open) && IsQuote(close)
    requires forall i :: 0 <= i < |inner| ==> !IsLineTerminator(inner[i])
    ensures Unquote([open] + inner + [close]) == inner
  {
    var s := [open] + inner + [close];
    assert forall i :: 1 <= i < |s| - 1 ==> s[i] == inner[i - 1];
    assert s[1..|s| - 1] == inner;
  }

  /** Only one layer is removed: doubly quoted text keeps its inner quotes. */
  lemma UnquoteOneLayer()
    ensures Unquote("\"'a'\"") == "'a'"
  {
    UnquoteWrap('"', "'a'", '"');
  }

  /** A quoted string that spans a line terminator is left as it is. */
  lemma UnquoteKeepsMultiline()
    ensures Unquote("'a\nb'") == "'a\nb'"
  {
    assert IsLineTerminator("'a\nb'"[2]);
  }
}
