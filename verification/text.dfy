/**
 * Models of the few Python string built-ins the bot relies on, restricted to
 * ASCII: `str.strip()`, `str.lower()`, the membership test `"||" in s` and
 * `s.split("||", 1)`.
 */
module Text {
  import opened Wrappers

  /** `str.isspace` on ASCII: space, tab, LF, VT, FF, CR and the separators 0x1C-0x1F. */
  predicate IsSpace(c: char) {
    c == ' ' || ('\t' <= c <= '\r') || ('\U{1C}' <= c <= '\U{1F}')
  }

  predicate IsUpper(c: char) {
    'A' <= c <= 'Z'
  }

  function LowerChar(c: char): char {
    if IsUpper(c) then (c as int + 32) as char else c
  }

  /** `s.lower()`: every upper-case letter mapped to its lower-case form, nothing else changed. */
  function Lower(s: string): (r: string)
    ensures |r| == |s|
    ensures forall i :: 0 <= i < |r| ==> !IsUpper(r[i])
    ensures forall i :: 0 <= i < |r| && !IsUpper(s[i]) ==> r[i] == s[i]
    ensures forall i :: 0 <= i < |r| && IsUpper(s[i]) ==> r[i] as int == s[i] as int + 32
  {
    seq(|s|, i requires 0 <= i < |s| => LowerChar(s[i]))
  }

  /** Two characters are the same letter up to ASCII case (or simply equal). */
  predicate SameIgnoringCase(c: char, d: char) {
    c == d || (IsUpper(c) && d as int == c as int + 32) || (IsUpper(d) && c as int == d as int + 32)
  }

  /** Equal up to ASCII case, position by position. */
  predicate EqualIgnoringCase(a: string, b: string) {
    |a| == |b| && forall i :: 0 <= i < |a| ==> SameIgnoringCase(a[i], b[i])
  }

  /** Comparing after `lower()` is exactly comparing up to ASCII case. */
  lemma LowerEqualIff(a: string, b: string)
    ensures Lower(a) == Lower(b) <==> EqualIgnoringCase(a, b)
  {
    var la, lb := Lower(a), Lower(b);
    if la == lb {
      forall i | 0 <= i < |a|
        ensures SameIgnoringCase(a[i], b[i])
      {
        assert la[i] == lb[i];
      }
    }
    if EqualIgnoringCase(a, b) {
      forall i | 0 <= i < |a|
        ensures la[i] == lb[i]
      {
        assert SameIgnoringCase(a[i], b[i]);
      }
    }
  }

  /** Leading whitespace removed: the result is the longest suffix not starting with a space. */
  function TrimStart(s: string): (r: string)
    ensures |r| <= |s|
    ensures forall i :: 0 <= i < |s| - |r| ==> IsSpace(s[i])
    ensures r != [] ==> !IsSpace(r[0])
  {
    if s != [] && IsSpace(s[0]) then TrimStart(s[1..]) else s
  }

  /** What `TrimStart` keeps is exactly the rest of the input. */
  lemma {:induction false} TrimStartSuffix(s: string)
    ensures TrimStart(s) == s[|s| - |TrimStart(s)|..]
  {
    if s != [] && IsSpace(s[0]) {
      TrimStartSuffix(s[1..]);
      assert s[1..][|s| - 1 - |TrimStart(s[1..])|..] == s[|s| - |TrimStart(s)|..];
    }
  }

  /** Trailing whitespace removed: the result is the longest prefix not ending with a space. */
  function TrimEnd(s: string): (r: string)
    ensures |r| <= |s| && r == s[..|r|]
    ensures forall i :: |r| <= i < |s| ==> IsSpace(s[i])
    ensures r != [] ==> !IsSpace(r[|r| - 1])
  {
    if s != [] && IsSpace(s[|s| - 1]) then TrimEnd(s[..|s| - 1]) else s
  }

  /** `s.strip()`. */
  function Trim(s: string): (r: string)
    ensures |r| <= |s|
    ensures Stripped(r)
  {
    TrimEnd(TrimStart(s))
  }

  predicate AllSpace(s: string) {
    forall i :: 0 <= i < |s| ==> IsSpace(s[i])
  }

  /** No whitespace at either end: `strip()` leaves such a string alone. */
  predicate Stripped(s: string) {
    s == [] || (!IsSpace(s[0]) && !IsSpace(s[|s| - 1]))
  }

  lemma {:induction false} TrimStartPadded(pre: string, x: string)
    requires AllSpace(pre)
    requires x == [] || !IsSpace(x[0])
    ensures TrimStart(pre + x) == x
  {
    if pre != [] {
      assert (pre + x)[1..] == pre[1..] + x;
      TrimStartPadded(pre[1..], x);
    }
  }

  lemma {:induction false} TrimEndPadded(x: string, post: string)
    requires AllSpace(post)
    requires x == [] || !IsSpace(x[|x| - 1])
    ensures TrimEnd(x + post) == x
  {
    if post != [] {
      var n := |post| - 1;
      assert (x + post)[..|x + post| - 1] == x + post[..n];
      TrimEndPadded(x, post[..n]);
    }
  }

  /** `strip()` removes exactly the surrounding whitespace and nothing else. */
  lemma TrimPadded(pre: string, x: string, post: string)
    requires AllSpace(pre) && AllSpace(post) && Stripped(x)
    ensures Trim(pre + x + post) == x
  {
    assert pre + x + post == pre + (x + post);
    if x == [] {
      assert x + post == post;
      TrimStartPadded(pre + post, []);
      assert pre + post + [] == pre + post;
    } else {
      TrimStartPadded(pre, x + post);
      TrimEndPadded(x, post);
    }
  }

  /** A `||` separator starts at index `i` of `s`. */
  predicate SepAt(s: string, i: int) {
    0 <= i && i + 1 < |s| && s[i] == '|' && s[i + 1] == '|'
  }

  /** `"||" in s`. */
  predicate ContainsSep(s: string) {
    exists i :: 0 <= i < |s| && SepAt(s, i)
  }

  /** The index of the first `||` in `s`, if any (`str.find`). */
  function FindSep(s: string): (r: Option<nat>)
    ensures r.Some? ==> SepAt(s, r.value) && forall j :: 0 <= j < r.value ==> !SepAt(s, j)
    ensures r.None? ==> !ContainsSep(s)
  {
    if |s| < 2 then None
    else if s[0] == '|' && s[1] == '|' then Some(0)
    else
      var tail := s[1..];
      assert forall j :: SepAt(s, j) && j > 0 ==> SepAt(tail, j - 1);
      assert forall j :: SepAt(tail, j) ==> SepAt(s, j + 1);
      match FindSep(tail)
      case None => None
      case Some(i) => Some(i + 1)
  }

  /**
   * `s.split("||", 1)`: None when `s` holds no `||`; otherwise the text before
   * the FIRST `||` and everything after it, later separators included.
   */
  function SplitFirst(s: string): (r: Option<(string, string)>)
    ensures r.Some? <==> ContainsSep(s)
    ensures r.Some? ==> r.value.0 + "||" + r.value.1 == s
    ensures r.Some? ==> !ContainsSep(r.value.0 + "|")
  {
    match FindSep(s)
    case None => None
    case Some(i) =>
      var head := s[..i];
      assert forall j :: SepAt(head + "|", j) ==> SepAt(s, j) && j < i;
      assert head + "||" + s[i + 2..] == s;
      Some((head, s[i + 2..]))
  }

  /**
   * Joining two fields with `||` and splitting again gives the fields back,
   * provided no `||` starts inside the first field (nor straddles its end):
   * whatever the second field holds, separators included, stays in it.
   */
  lemma SplitJoin(a: string, b: string)
    requires !ContainsSep(a + "|")
    ensures SplitFirst(a + "||" + b) == Some((a, b))
  {
    var s := a + "||" + b;
    assert SepAt(s, |a|);
    forall j | 0 <= j < |a|
      ensures SepAt(s, j) ==> SepAt(a + "|", j)
    {
    }
    var r := SplitFirst(s);
    assert FindSep(s) == Some(|a|);
    assert s[..|a|] == a && s[|a| + 2..] == b;
  }
}
