/**
 * The Python and JavaScript string operations the repository relies on:
 * `str.isspace`, `str.split()`, `str.split(sep)`, `str.strip()`,
 * `str.rstrip()`, `sep.join(...)`, `str.find` / `String.prototype.indexOf`
 * and `str.lower()` on the characters that matter here.
 */
module Strings {

  /** The characters Python's `str.isspace()` accepts; `split()`, `strip()` and `rstrip()` use the same set. */
  predicate IsSpace(c: char) {
    ('\t' <= c <= '\r') || ('\U{1c}' <= c <= ' ') || c == '\U{85}' || c == '\U{a0}' || c == '\U{1680}'
    || ('\U{2000}' <= c <= '\U{200a}') || c == '\U{2028}' || c == '\U{2029}' || c == '\U{202f}'
    || c == '\U{205f}' || c == '\U{3000}'
  }

  predicate AllSpace(s: string) {
    forall i :: 0 <= i < |s| ==> IsSpace(s[i])
  }

  lemma AllSpaceSlice(s: string, lo: nat, hi: nat)
    requires lo <= hi <= |s| && AllSpace(s)
    ensures AllSpace(s[lo..hi])
  {
    assert forall i :: 0 <= i < hi - lo ==> s[lo..hi][i] == s[lo + i];
  }

  predicate NoSpace(s: string) {
    forall i :: 0 <= i < |s| ==> !IsSpace(s[i])
  }

  /** `p` occurs in `s` starting at position `k`. */
  predicate OccursAt(s: string, p: string, k: int) {
    0 <= k && k + |p| <= |s| && s[k..k + |p|] == p
  }

  lemma OccursAtShift(s: string, p: string, k: nat)
    requires s != []
    ensures OccursAt(s, p, k + 1) <==> OccursAt(s[1..], p, k)
  {
  }

  /** An occurrence that ends inside `a` is the same in `a` and in `a + x`. */
  lemma OccursAtPrefix(a: string, x: string, p: string, k: int)
    requires 0 <= k && k + |p| <= |a|
    ensures OccursAt(a + x, p, k) <==> OccursAt(a, p, k)
  {
  }

  /** An occurrence inside the slice `s[lo..hi]` is an occurrence in `s`. */
  lemma OccursAtSlice(s: string, p: string, lo: nat, hi: nat, k: int)
    requires lo <= hi <= |s|
    requires OccursAt(s[lo..hi], p, k)
    ensures OccursAt(s, p, lo + k)
  {
    var a, b := s[lo..hi][k..k + |p|], s[lo + k..lo + k + |p|];
    assert |a| == |b| && forall j :: 0 <= j < |a| ==> a[j] == b[j];
    assert a == b;
  }

  /** `s.indexOf(p)` / `s.find(p)`: the first position where `p` occurs in `s`, or -1 when it does not occur. */
  function IndexOf(s: string, p: string): (r: int)
    ensures r == -1 || OccursAt(s, p, r)
    decreases |s|
  {
    if |p| > |s| then -1
    else if s[..|p|] == p then 0
    else
      var r := IndexOf(s[1..], p);
      if r == -1 then -1
      else
        OccursAtShift(s, p, r);
        r + 1
  }

  /** No occurrence comes before the one `IndexOf` finds. */
  lemma {:induction false} IndexOfFirst(s: string, p: string)
    ensures forall k :: 0 <= k < IndexOf(s, p) ==> !OccursAt(s, p, k)
    decreases |s|
  {
    if |p| <= |s| && s[..|p|] != p {
      IndexOfFirst(s[1..], p);
      forall k | 0 <= k < IndexOf(s, p) ensures !OccursAt(s, p, k) {
        if k > 0 { OccursAtShift(s, p, k - 1); }
      }
    }
  }

  /** -1 means that `p` occurs nowhere in `s`. */
  lemma {:induction false} IndexOfMissing(s: string, p: string)
    ensures IndexOf(s, p) == -1 <==> forall k :: 0 <= k <= |s| ==> !OccursAt(s, p, k)
    decreases |s|
  {
    if |p| <= |s| && s[..|p|] != p {
      IndexOfMissing(s[1..], p);
      forall k | 0 < k <= |s| ensures OccursAt(s, p, k) <==> OccursAt(s[1..], p, k - 1) {
        OccursAtShift(s, p, k - 1);
      }
      assert !OccursAt(s, p, 0);
      if IndexOf(s[1..], p) != -1 {
        OccursAtShift(s, p, IndexOf(s[1..], p));
      }
    }
  }

  /** The first occurrence is the position of an occurrence with none before it. */
  lemma IndexOfIs(s: string, p: string, r: int)
    requires OccursAt(s, p, r)
    requires forall k :: 0 <= k < r ==> !OccursAt(s, p, k)
    ensures IndexOf(s, p) == r
  {
    IndexOfMissing(s, p);
    IndexOfFirst(s, p);
    var i := IndexOf(s, p);
    assert i != -1;
    assert !(i < r) && !(r < i);
  }

  /** A first occurrence found in a prefix stays the first occurrence whatever follows the prefix. */
  lemma IndexOfExtend(a: string, p: string, x: string)
    requires IndexOf(a, p) >= 0
    ensures IndexOf(a + x, p) == IndexOf(a, p)
  {
    var i := IndexOf(a, p);
    IndexOfFirst(a, p);
    OccursAtPrefix(a, x, p, i);
    forall k | 0 <= k < i ensures !OccursAt(a + x, p, k) {
      OccursAtPrefix(a, x, p, k);
    }
    IndexOfIs(a + x, p, i);
  }

  /** A string in which `p` does not occur has no occurrence of `p` in any slice either. */
  lemma NoOccurrenceInSlice(s: string, p: string, lo: nat, hi: nat)
    requires lo <= hi <= |s|
    requires IndexOf(s, p) == -1
    ensures IndexOf(s[lo..hi], p) == -1
  {
    IndexOfMissing(s, p);
    IndexOfMissing(s[lo..hi], p);
    forall k | 0 <= k <= hi - lo ensures !OccursAt(s[lo..hi], p, k) {
      if OccursAt(s[lo..hi], p, k) { OccursAtSlice(s, p, lo, hi, k); }
    }
  }

  /** `sep.join(parts)`. */
  function Join(parts: seq<string>, sep: string): string {
    if |parts| == 0 then ""
    else if |parts| == 1 then parts[0]
    else parts[0] + sep + Join(parts[1..], sep)
  }

  lemma {:induction false} JoinSnoc(parts: seq<string>, p: string, sep: string)
    requires parts != []
    ensures Join(parts + [p], sep) == Join(parts, sep) + sep + p
  {
    if |parts| == 1 {
      assert (parts + [p])[1..] == [p];
    } else {
      assert (parts + [p])[1..] == parts[1..] + [p];
      JoinSnoc(parts[1..], p, sep);
    }
  }

  lemma JoinCons(p: string, parts: seq<string>, sep: string)
    requires parts != []
    ensures Join([p] + parts, sep) == p + sep + Join(parts, sep)
  {
    assert ([p] + parts)[1..] == parts;
  }

  /** An occurrence of `sep` at `i` cuts `s` into what comes before, `sep`, and what comes after. */
  lemma SplitAround(s: string, sep: string, i: int)
    requires OccursAt(s, sep, i)
    ensures s == s[..i] + sep + s[i + |sep|..]
  {
    assert s[i..i + |sep|] == sep;
    assert s == s[..i] + s[i..i + |sep|] + s[i + |sep|..];
  }

  /** `s.split(sep)` for a non-empty separator. */
  function SplitOn(s: string, sep: string): (r: seq<string>)
    requires sep != []
    ensures |r| >= 1
    decreases |s|
  {
    var i := IndexOf(s, sep);
    if i == -1 then [s] else [s[..i]] + SplitOn(s[i + |sep|..], sep)
  }

  /** Splitting and joining again on the same separator gives back the text. */
  lemma {:induction false} JoinSplit(s: string, sep: string)
    requires sep != []
    ensures Join(SplitOn(s, sep), sep) == s
    decreases |s|
  {
    var i := IndexOf(s, sep);
    if i != -1 {
      var rest := s[i + |sep|..];
      JoinSplit(rest, sep);
      JoinCons(s[..i], SplitOn(rest, sep), sep);
      SplitAround(s, sep, i);
    }
  }

  /** No piece of `s.split(sep)` contains the separator. */
  lemma {:induction false} SplitPiecesHaveNoSep(s: string, sep: string)
    requires sep != []
    ensures forall q :: q in SplitOn(s, sep) ==> IndexOf(q, sep) == -1
    decreases |s|
  {
    var i := IndexOf(s, sep);
    if i != -1 {
      SplitPiecesHaveNoSep(s[i + |sep|..], sep);
      IndexOfFirst(s, sep);
      var q := s[..i];
      forall k | 0 <= k <= |q| ensures !OccursAt(q, sep, k) {
        if k + |sep| <= |q| {
          assert s == q + s[i..];
          OccursAtPrefix(q, s[i..], sep, k);
        }
      }
      IndexOfMissing(q, sep);
    }
  }

  /** A part that the separator can only start right after. */
  predicate SepOnlyAtEnd(p: string, sep: string) {
    IndexOf(p + sep, sep) == |p|
  }

  /** The first piece of `s.split(sep)` ends where the first separator starts. */
  lemma SplitOnAt(s: string, sep: string, i: int)
    requires sep != [] && IndexOf(s, sep) == i && i >= 0
    ensures SplitOn(s, sep) == [s[..i]] + SplitOn(s[i + |sep|..], sep)
  {
  }

  /** Joining parts in which the separator cannot start early and splitting again gives back the parts. */
  lemma {:induction false} SplitJoin(parts: seq<string>, sep: string)
    requires sep != [] && parts != []
    requires forall p :: p in parts ==> SepOnlyAtEnd(p, sep)
    ensures SplitOn(Join(parts, sep), sep) == parts
  {
    var p := parts[0];
    assert p in parts;
    if |parts| == 1 {
      assert parts == [p];
      SplitJoinOne(p, sep);
    } else {
      var rest := parts[1..];
      assert forall q :: q in rest ==> q in parts;
      SplitJoin(rest, sep);
      SplitJoinCons(parts, sep);
    }
  }

  /** The base of `SplitJoin`: a single part. */
  lemma SplitJoinOne(p: string, sep: string)
    requires sep != [] && SepOnlyAtEnd(p, sep)
    ensures SplitOn(p, sep) == [p]
  {
    if IndexOf(p, sep) != -1 {
      IndexOfExtend(p, sep, sep);
      assert false;
    }
  }

  /** The step of `SplitJoin`: one more part in front. */
  lemma SplitJoinCons(parts: seq<string>, sep: string)
    requires sep != [] && |parts| >= 2 && SepOnlyAtEnd(parts[0], sep)
    requires SplitOn(Join(parts[1..], sep), sep) == parts[1..]
    ensures SplitOn(Join(parts, sep), sep) == parts
  {
    var p, rest := parts[0], parts[1..];
    var s := p + sep + Join(rest, sep);
    assert Join(parts, sep) == s;
    assert [p] + rest == parts;
    IndexOfExtend(p + sep, sep, Join(rest, sep));
    SplitOnAt(s, sep, |p|);
    assert s[..|p|] == p;
    assert s[|p| + |sep|..] == Join(rest, sep);
  }

  /** The length of the leading run of non-whitespace characters. */
  function WordEnd(s: string): (n: nat)
    ensures n <= |s|
    ensures forall i :: 0 <= i < n ==> !IsSpace(s[i])
    ensures n == |s| || IsSpace(s[n])
  {
    if s == [] || IsSpace(s[0]) then 0 else 1 + WordEnd(s[1..])
  }

  /** `s.split()`: the maximal runs of non-whitespace characters, in order. */
  function Words(s: string): (r: seq<string>)
    ensures forall w :: w in r ==> w != [] && NoSpace(w)
    decreases |s|
  {
    if s == [] then []
    else if IsSpace(s[0]) then Words(s[1..])
    else
      var n := WordEnd(s);
      [s[..n]] + Words(s[n..])
  }

  /** `" ".join(s.split())`: every run of whitespace becomes one space, none at either end. */
  function Collapse(s: string): string {
    Join(Words(s), " ")
  }

  lemma WordsOfWordThenRest(w: string, rest: string)
    requires w != [] && NoSpace(w)
    requires rest == [] || IsSpace(rest[0])
    ensures Words(w + rest) == [w] + Words(rest)
  {
    var s := w + rest;
    assert WordEnd(s) == |w| by {
    }
    assert s[..|w|] == w;
    assert s[|w|..] == rest;
  }

  /** Splitting single-space-joined words on whitespace gives back the words. */
  lemma {:induction false} WordsOfJoin(ws: seq<string>)
    requires forall w :: w in ws ==> w != [] && NoSpace(w)
    ensures Words(Join(ws, " ")) == ws
  {
    if |ws| == 1 {
      assert ws[0] in ws;
      WordsOfWordThenRest(ws[0], "");
      assert ws[0] + "" == ws[0];
    } else if |ws| > 1 {
      var tail := Join(ws[1..], " ");
      assert ws[0] in ws;
      assert forall w :: w in ws[1..] ==> w in ws;
      WordsOfJoin(ws[1..]);
      assert ws[0] + " " + tail == ws[0] + (" " + tail);
      WordsOfWordThenRest(ws[0], " " + tail);
      assert (" " + tail)[1..] == tail;
    }
  }

  /** Collapsing whitespace keeps the words and is idempotent. */
  lemma CollapseKeepsWords(s: string)
    ensures Words(Collapse(s)) == Words(s)
    ensures Collapse(Collapse(s)) == Collapse(s)
  {
    WordsOfJoin(Words(s));
  }

  /** `s.rstrip()`. */
  function RStrip(s: string): (r: string)
    ensures |r| <= |s| && r == s[..|r|]
    ensures r == [] || !IsSpace(r[|r| - 1])
  {
    if s == [] then []
    else if IsSpace(s[|s| - 1]) then RStrip(s[..|s| - 1])
    else s
  }

  /** `s.lstrip()`. */
  function LStrip(s: string): (r: string)
    ensures |r| <= |s| && r == s[|s| - |r|..]
    ensures r == [] || !IsSpace(r[0])
  {
    if s == [] then []
    else if IsSpace(s[0]) then LStrip(s[1..])
    else s
  }

  /** What `rstrip()` cuts off is whitespace. */
  lemma {:induction false} RStripCutsSpace(s: string)
    ensures forall i :: |RStrip(s)| <= i < |s| ==> IsSpace(s[i])
  {
    if s != [] && IsSpace(s[|s| - 1]) {
      RStripCutsSpace(s[..|s| - 1]);
    }
  }

  /** What `lstrip()` cuts off is whitespace. */
  lemma {:induction false} LStripCutsSpace(s: string)
    ensures forall i :: 0 <= i < |s| - |LStrip(s)| ==> IsSpace(s[i])
  {
    if s != [] && IsSpace(s[0]) {
      LStripCutsSpace(s[1..]);
    }
  }

  /** Non-empty, and neither starting nor ending with whitespace. */
  predicate Trimmed(s: string) {
    s != [] && !IsSpace(s[0]) && !IsSpace(s[|s| - 1])
  }

  /** `s.strip()`. */
  function Strip(s: string): (r: string)
    ensures r == [] || Trimmed(r)
  {
    LStrip(RStrip(s))
  }

  /** What `strip()` keeps of `s` is one contiguous slice of it. */
  lemma StripIsSlice(s: string)
    ensures exists lo: nat, hi: nat :: lo <= hi <= |s| && Strip(s) == s[lo..hi]
  {
    var t := RStrip(s);
    var r := LStrip(t);
    assert r == s[|t| - |r|..|t|];
  }

  /** `s.strip()` is empty exactly when `s` is whitespace only. */
  lemma StripAllSpace(s: string)
    ensures Strip(s) == [] <==> AllSpace(s)
  {
    var t := RStrip(s);
    if AllSpace(s) {
      assert t == [];
    } else if Strip(s) == [] {
      RStripCutsSpace(s);
      LStripCutsSpace(t);
      assert false;
    }
  }

  /** Whitespace joined with whitespace is whitespace. */
  lemma {:induction false} JoinAllSpace(parts: seq<string>, sep: string)
    requires AllSpace(sep) && forall q :: q in parts ==> AllSpace(q)
    ensures AllSpace(Join(parts, sep))
  {
    if |parts| > 1 {
      assert parts[0] in parts;
      assert forall q :: q in parts[1..] ==> q in parts;
      JoinAllSpace(parts[1..], sep);
      var a, b := parts[0] + sep, Join(parts[1..], sep);
      assert forall i :: 0 <= i < |a + b| ==> (a + b)[i] == if i < |a| then a[i] else b[i - |a|];
    } else if |parts| == 1 {
      assert parts[0] in parts;
    }
  }

  /** ASCII lower-casing: A-Z become a-z, everything else is kept. */
  function LowerAscii(s: string): (r: string)
    ensures |r| == |s|
    ensures forall i :: 0 <= i < |s| ==> r[i] == if 'A' <= s[i] <= 'Z' then (s[i] - 'A' + 'a') as char else s[i]
  {
    if s == [] then [] else [if 'A' <= s[0] <= 'Z' then (s[0] - 'A' + 'a') as char else s[0]] + LowerAscii(s[1..])
  }
}
