/**
 * String helpers with the meaning Python gives them in the scraper:
 * `str.strip()`, `str.lower()`, `sub in s`, `s.split(sep)[0]` and `s.replace(c, '')`.
 */
module Text {
  import opened Wrappers

  /** The characters for which Python's `str.isspace()` holds (and which `\s` matches). */
  predicate IsSpace(c: char) {
    var n := c as int;
    n == 0x20 || 0x09 <= n <= 0x0D || 0x1C <= n <= 0x1F || n == 0x85 || n == 0xA0 ||
    n == 0x1680 || 0x2000 <= n <= 0x200A || n == 0x2028 || n == 0x2029 ||
    n == 0x202F || n == 0x205F || n == 0x3000
  }

  predicate IsDigit(c: char) {
    '0' <= c <= '9'
  }

  predicate AllDigits(s: string) {
    forall i :: 0 <= i < |s| ==> IsDigit(s[i])
  }

  /** `p` occurs in `s` at position `i`. */
  predicate HasAt(s: string, p: string, i: nat) {
    i + |p| <= |s| && s[i..i + |p|] == p
  }

  /**
   * A left-to-right search: the first position at or after `d`, and before `n`,
   * where `matchesAt` holds. `re.search` reports the leftmost match this way.
   */
  function Leftmost(n: nat, matchesAt: nat -> bool, d: nat): (r: Option<nat>)
    requires d <= n
    decreases n - d
    ensures r.Some? ==> d <= r.value < n && matchesAt(r.value)
    ensures r.Some? ==> forall j :: d <= j < r.value ==> !matchesAt(j)
    ensures r.None? ==> forall j :: d <= j < n ==> !matchesAt(j)
  {
    if d == n then None
    else if matchesAt(d) then Some(d)
    else Leftmost(n, matchesAt, d + 1)
  }

  /** The first position at or after `i` where `p` occurs. */
  function IndexFrom(s: string, p: string, i: nat): (r: Option<nat>)
    requires i <= |s|
    decreases |s| - i
    ensures r.Some? ==> i <= r.value && HasAt(s, p, r.value)
    ensures r.Some? ==> forall j :: i <= j < r.value ==> !HasAt(s, p, j)
    ensures r.None? ==> forall j :: i <= j <= |s| ==> !HasAt(s, p, j)
  {
    if HasAt(s, p, i) then Some(i)
    else if i == |s| then None
    else IndexFrom(s, p, i + 1)
  }

  /** Python's `s.find(p)`, as an option: the first position where `p` occurs. */
  function IndexOf(s: string, p: string): (r: Option<nat>)
    ensures r.Some? ==> HasAt(s, p, r.value) && forall j :: 0 <= j < r.value ==> !HasAt(s, p, j)
    ensures r.None? ==> forall j :: 0 <= j <= |s| ==> !HasAt(s, p, j)
  {
    IndexFrom(s, p, 0)
  }

  /** A first occurrence is what `IndexOf` finds. */
  lemma IndexOfIs(s: string, p: string, k: nat)
    requires HasAt(s, p, k)
    requires forall j :: 0 <= j < k ==> !HasAt(s, p, j)
    ensures IndexOf(s, p) == Some(k)
  {
  }

  /** Python's `p in s`. */
  predicate Contains(s: string, p: string) {
    IndexOf(s, p).Some?
  }

  lemma ContainsAt(s: string, p: string, i: nat)
    requires HasAt(s, p, i)
    ensures Contains(s, p)
  {
  }

  /** Python's `s.split(sep)[0]`: everything before the first `sep`, or all of `s`. */
  function BeforeFirst(s: string, sep: string): (r: string)
    ensures |r| <= |s| && r == s[..|r|]
    ensures IndexOf(s, sep).None? ==> r == s
    ensures IndexOf(s, sep).Some? ==> HasAt(s, sep, |r|)
  {
    match IndexOf(s, sep)
    case None => s
    case Some(i) => s[..i]
  }

  /**
   * `r` is `s.split(sep)[0]`: a prefix of `s` at none of whose positions `sep`
   * starts, followed by `sep` when `s` has it, and all of `s` otherwise.
   */
  predicate IsFirstPiece(s: string, sep: string, r: string) {
    && |r| <= |s| && r == s[..|r|]
    && (forall j :: 0 <= j < |r| ==> !HasAt(s, sep, j))
    && (Contains(s, sep) ==> HasAt(s, sep, |r|))
    && (!Contains(s, sep) ==> r == s)
  }

  /** `BeforeFirst` is the first piece, and the first piece is unique. */
  lemma BeforeFirstIsFirstPiece(s: string, sep: string, r: string)
    requires sep != []
    ensures IsFirstPiece(s, sep, BeforeFirst(s, sep))
    ensures !Contains(BeforeFirst(s, sep), sep)
    ensures IsFirstPiece(s, sep, r) ==> r == BeforeFirst(s, sep)
  {
    BeforeFirstHasNoSeparator(s, sep);
    if IsFirstPiece(s, sep, r) && Contains(s, sep) {
      IndexOfIs(s, sep, |r|);
    }
  }

  /** The part before the first separator never contains the separator. */
  lemma {:induction false} BeforeFirstHasNoSeparator(s: string, sep: string)
    requires sep != []
    ensures !Contains(BeforeFirst(s, sep), sep)
  {
    var r := BeforeFirst(s, sep);
    forall j | 0 <= j <= |r|
      ensures !HasAt(r, sep, j)
    {
      if j + |sep| <= |r| {
        assert r[j..j + |sep|] == s[j..j + |sep|];
        assert !HasAt(s, sep, j) by {
          if IndexOf(s, sep).Some? {
            assert j < IndexOf(s, sep).value == |r|;
          }
        }
      }
    }
  }

  /** When the separator occurs, `s` splits into the part before it, the separator and the rest. */
  lemma BeforeFirstSplits(s: string, sep: string)
    requires Contains(s, sep)
    ensures s == BeforeFirst(s, sep) + sep + s[|BeforeFirst(s, sep)| + |sep|..]
  {
    var r := BeforeFirst(s, sep);
    assert s == s[..|r|] + s[|r|..|r| + |sep|] + s[|r| + |sep|..];
  }

  /** ASCII lower-casing of one character. */
  function LowerChar(c: char): char {
    if 'A' <= c <= 'Z' then (c as int + 32) as char else c
  }

  /** Python's `s.lower()`, for ASCII letters. */
  function Lower(s: string): (r: string)
    ensures |r| == |s|
    ensures forall i :: 0 <= i < |s| ==> r[i] == LowerChar(s[i])
  {
    seq(|s|, i requires 0 <= i < |s| => LowerChar(s[i]))
  }

  /** `p` (given in lower case) occurs at `i` in `s`, ignoring ASCII case. */
  predicate HasAtIgnoringCase(s: string, p: string, i: nat) {
    i + |p| <= |s| && Lower(s[i..i + |p|]) == p
  }

  /** Where `p` occurs ignoring case, each character lower-cases to the one of `p`. */
  lemma LowerAt(s: string, p: string, i: nat, k: nat)
    requires HasAtIgnoringCase(s, p, i) && k < |p|
    ensures LowerChar(s[i + k]) == p[k]
  {
    assert Lower(s[i..i + |p|])[k] == LowerChar(s[i..i + |p|][k]);
  }

  /** Python's `s.replace(c, '')`. */
  function RemoveChar(s: string, c: char): string
  {
    if s == [] then []
    else (if s[0] == c then [] else [s[0]]) + RemoveChar(s[1..], c)
  }

  /** `c` is gone, and every other character of `s` is still there. */
  lemma {:induction false} RemoveCharMembers(s: string, c: char)
    ensures forall x :: x in RemoveChar(s, c) <==> x in s && x != c
  {
    if s != [] {
      RemoveCharMembers(s[1..], c);
      assert s == [s[0]] + s[1..];
    }
  }

  /** `RemoveChar` keeps the other characters in order: it works piece by piece. */
  lemma {:induction false} RemoveCharAppend(a: string, b: string, c: char)
    ensures RemoveChar(a + b, c) == RemoveChar(a, c) + RemoveChar(b, c)
  {
    if a == [] {
      assert a + b == b;
    } else {
      var head := if a[0] == c then [] else [a[0]];
      assert (a + b)[0] == a[0];
      assert (a + b)[1..] == a[1..] + b;
      RemoveCharAppend(a[1..], b, c);
      assert RemoveChar(a + b, c) == head + (RemoveChar(a[1..], c) + RemoveChar(b, c));
    }
  }

  /** On one character `RemoveChar` drops exactly `c`. */
  lemma RemoveCharOne(x: char, c: char)
    ensures RemoveChar([x], c) == if x == c then [] else [x]
  {
    assert [x][1..] == [];
  }

  /** A string without `c` is left as it is. */
  lemma {:induction false} RemoveCharAbsent(s: string, c: char)
    requires forall i :: 0 <= i < |s| ==> s[i] != c
    ensures RemoveChar(s, c) == s
  {
    if s != [] {
      RemoveCharAbsent(s[1..], c);
      assert s == [s[0]] + s[1..];
    }
  }

  /** The number of leading whitespace characters of `s`. */
  function LeadEnd(s: string): (k: nat)
    ensures k <= |s|
    ensures forall i :: 0 <= i < k ==> IsSpace(s[i])
    ensures k < |s| ==> !IsSpace(s[k])
  {
    if s == [] || !IsSpace(s[0]) then 0 else 1 + LeadEnd(s[1..])
  }

  /** The length of `s` without its trailing whitespace. */
  function TrailStart(s: string): (k: nat)
    ensures k <= |s|
    ensures forall i :: k <= i < |s| ==> IsSpace(s[i])
    ensures 0 < k ==> !IsSpace(s[k - 1])
  {
    if s == [] || !IsSpace(s[|s| - 1]) then |s| else TrailStart(s[..|s| - 1])
  }

  /** Python's `s.strip()`: `s` without leading and trailing whitespace. */
  function Strip(s: string): (r: string)
    ensures r == [] || (!IsSpace(r[0]) && !IsSpace(r[|r| - 1]))
    ensures LeadEnd(s) + |r| <= |s| && r == s[LeadEnd(s)..LeadEnd(s) + |r|]
    ensures forall i :: 0 <= i < |s| && (i < LeadEnd(s) || LeadEnd(s) + |r| <= i) ==> IsSpace(s[i])
  {
    var t := s[LeadEnd(s)..];
    t[..TrailStart(t)]
  }

  /** Stripping a string twice strips nothing more. */
  lemma StripIdempotent(s: string)
    ensures Strip(Strip(s)) == Strip(s)
  {
    StripKeeps(Strip(s));
  }

  /** A string without whitespace at either end is its own strip. */
  lemma StripKeeps(s: string)
    requires s == [] || (!IsSpace(s[0]) && !IsSpace(s[|s| - 1]))
    ensures Strip(s) == s
  {
    var r := Strip(s);
    if s != [] {
      assert LeadEnd(s) == 0;
    }
  }

  /** Strip drops only whitespace: every other character of `s` survives it. */
  lemma StripKeepsNonSpace(s: string, c: char)
    requires c in s && !IsSpace(c)
    ensures c in Strip(s)
  {
    var i :| 0 <= i < |s| && s[i] == c;
    var r := Strip(s);
    assert r[i - LeadEnd(s)] == c;
  }

  /** `p` found in `a` is still found at the same place once `b` is appended. */
  lemma HasAtExtends(a: string, b: string, p: string, i: nat)
    requires HasAt(a, p, i)
    ensures HasAt(a + b, p, i)
  {
    assert (a + b)[i..i + |p|] == a[i..i + |p|];
  }

  /** Python's `sep.join(parts)`. */
  function Join(parts: seq<string>, sep: string): (r: string)
    ensures |parts| == 1 ==> r == parts[0]
  {
    if parts == [] then []
    else if |parts| == 1 then parts[0]
    else Join(parts[..|parts| - 1], sep) + sep + parts[|parts| - 1]
  }

  /** A joined string begins with the first part. */
  lemma {:induction false} JoinStartsWithFirst(parts: seq<string>, sep: string)
    requires parts != []
    ensures |parts[0]| <= |Join(parts, sep)| && Join(parts, sep)[..|parts[0]|] == parts[0]
  {
    if |parts| > 1 {
      var init := parts[..|parts| - 1];
      JoinStartsWithFirst(init, sep);
      assert init[0] == parts[0];
    }
  }

  /** Every part occurs in the joined string. */
  lemma {:induction false} JoinHasPart(parts: seq<string>, sep: string, i: nat)
    requires i < |parts|
    ensures Contains(Join(parts, sep), parts[i])
  {
    if |parts| > 1 {
      var init := parts[..|parts| - 1];
      var j := Join(init, sep);
      if i == |parts| - 1 {
        assert HasAt(Join(parts, sep), parts[i], |j| + |sep|);
      } else {
        JoinHasPart(init, sep, i);
        var k := IndexOf(j, parts[i]).value;
        HasAtExtends(j, sep + parts[|parts| - 1], parts[i], k);
        assert j + (sep + parts[|parts| - 1]) == Join(parts, sep);
      }
    }
  }

  /** What `b` contains, `a + b` contains too. */
  lemma ContainsPrepends(a: string, b: string, p: string)
    requires Contains(b, p)
    ensures Contains(a + b, p)
  {
    var k := IndexOf(b, p).value;
    assert (a + b)[|a| + k..|a| + k + |p|] == b[k..k + |p|];
    ContainsAt(a + b, p, |a| + k);
  }

  /** What occurs in a part of `s` occurs in `s`. */
  lemma ContainsTrans(s: string, m: string, p: string)
    requires Contains(s, m) && Contains(m, p)
    ensures Contains(s, p)
  {
    var i := IndexOf(s, m).value;
    var k := IndexOf(m, p).value;
    assert m == s[i..i + |m|];
    assert m[k..k + |p|] == p;
    assert forall j :: 0 <= j < |p| ==> s[i + k + j] == m[k + j] == p[j];
    assert s[i + k..i + k + |p|] == p;
    ContainsAt(s, p, i + k);
  }

  /** What `a` contains, `a + b` contains too. */
  lemma ContainsExtends(a: string, b: string, p: string)
    requires Contains(a, p)
    ensures Contains(a + b, p)
  {
    HasAtExtends(a, b, p, IndexOf(a, p).value);
  }
}
