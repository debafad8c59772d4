/** The handful of Python 2 string operations the modelled code relies on,
    over `string` (a sequence of characters). Each function says which
    Python operation it stands for; the lemmas are the facts about them the
    rest of the model needs (mostly: splitting and re-joining round-trips). */
module Text {

  /** Whitespace as Python 2 byte strings see it: space, \t, \n, \v, \f, \r. */
  predicate IsSpace(c: char) {
    c == ' ' || 9 <= c as int <= 13
  }

  predicate NoSpace(s: string) {
    forall i :: 0 <= i < |s| ==> !IsSpace(s[i])
  }

  function LowerChar(c: char): char {
    if 'A' <= c <= 'Z' then (c as int + 32) as char else c
  }

  /** `s.lower()` on ASCII text. */
  function Lower(s: string): (r: string)
    ensures |r| == |s|
    ensures forall i :: 0 <= i < |s| ==> r[i] == LowerChar(s[i])
  {
    seq(|s|, i requires 0 <= i < |s| => LowerChar(s[i]))
  }

  /** Lower-casing twice is lower-casing once. */
  lemma LowerIdempotent(s: string)
    ensures Lower(Lower(s)) == Lower(s)
  {
    assert forall i :: 0 <= i < |s| ==> LowerChar(LowerChar(s[i])) == LowerChar(s[i]);
  }

  /** Text without upper-case letters is its own lower case. */
  lemma LowerKeeps(s: string)
    requires forall i :: 0 <= i < |s| ==> !('A' <= s[i] <= 'Z')
    ensures Lower(s) == s
  {
  }

  /** `s.find(c, from)`: the first position at or after `from` holding `c`,
      or -1 when there is none. */
  function IndexOf(s: string, c: char, from: nat): (i: int)
    ensures i == -1 || (from <= i < |s| && s[i] == c)
    ensures i == -1 ==> forall j :: from <= j < |s| ==> s[j] != c
    ensures i != -1 ==> forall j :: from <= j < i ==> s[j] != c
    decreases |s| - from
  {
    if from >= |s| then -1
    else if s[from] == c then from
    else IndexOf(s, c, from + 1)
  }

  /** `sep.join(parts)`. */
  function Join(sep: string, parts: seq<string>): string
    decreases |parts|
  {
    if |parts| == 0 then []
    else if |parts| == 1 then parts[0]
    else parts[0] + sep + Join(sep, parts[1..])
  }

  /** `s.split(sep)` for a non-empty separator: the pieces between the
      left-to-right, non-overlapping occurrences of `sep`. There is always
      at least one piece. */
  function SplitOn(s: string, sep: string): (parts: seq<string>)
    requires sep != []
    ensures |parts| >= 1
    decreases |s|
  {
    if |s| < |sep| then [s]
    else if s[..|sep|] == sep then [[]] + SplitOn(s[|sep|..], sep)
    else
      var rest := SplitOn(s[1..], sep);
      [[s[0]] + rest[0]] + rest[1..]
  }

  /** `sep` occurs in `s` at position `i`. */
  predicate OccursAt(s: string, sep: string, i: int) {
    0 <= i && i + |sep| <= |s| && s[i..i + |sep|] == sep
  }

  /** `sep in s`. */
  predicate Occurs(s: string, sep: string) {
    exists i :: 0 <= i <= |s| && OccursAt(s, sep, i)
  }

  /** Splitting at a separator that does not occur gives the whole string. */
  lemma {:induction false} SplitAbsent(s: string, sep: string)
    requires sep != [] && !Occurs(s, sep)
    ensures SplitOn(s, sep) == [s]
    decreases |s|
  {
    if |s| >= |sep| {
      assert !OccursAt(s, sep, 0);
      assert s[0..|sep|] == s[..|sep|];
      forall i ensures !OccursAt(s[1..], sep, i) {
        if 0 <= i && i + |sep| <= |s[1..]| {
          assert s[1..][i..i + |sep|] == s[i + 1..i + 1 + |sep|];
          assert !OccursAt(s, sep, i + 1);
        }
      }
      SplitAbsent(s[1..], sep);
      assert [s[0]] + s[1..] == s;
    }
  }

  /** A string opening with the separator splits into an empty first piece
      and the pieces of the rest. */
  lemma SplitLeading(sep: string, rest: string)
    requires sep != []
    ensures SplitOn(sep + rest, sep) == [[]] + SplitOn(rest, sep)
  {
    assert (sep + rest)[..|sep|] == sep && (sep + rest)[|sep|..] == rest;
  }

  function Last<T>(xs: seq<T>): T
    requires |xs| > 0
  {
    xs[|xs| - 1]
  }

  /** Prefixing the first part prefixes the joined string. */
  lemma {:induction false} JoinPrepend(c: string, sep: string, parts: seq<string>)
    requires |parts| >= 1
    ensures Join(sep, [c + parts[0]] + parts[1..]) == c + Join(sep, parts)
  {
    var q := [c + parts[0]] + parts[1..];
    if |parts| == 1 {
      assert q == [c + parts[0]];
    } else {
      assert q[1..] == parts[1..];
    }
  }

  /** Splitting and joining again with the same separator gives back the
      original string (this is why `str.replace` equals `new.join(s.split(old))`). */
  lemma {:induction false} JoinSplit(s: string, sep: string)
    requires sep != []
    ensures Join(sep, SplitOn(s, sep)) == s
    decreases |s|
  {
    if |s| < |sep| {
    } else if s[..|sep|] == sep {
      JoinSplit(s[|sep|..], sep);
      var rest := SplitOn(s[|sep|..], sep);
      assert SplitOn(s, sep) == [[]] + rest;
      assert ([[]] + rest)[1..] == rest;
      assert s == s[..|sep|] + s[|sep|..];
    } else {
      JoinSplit(s[1..], sep);
      JoinPrepend([s[0]], sep, SplitOn(s[1..], sep));
      assert s == [s[0]] + s[1..];
    }
  }

  /** With a one-character separator no piece contains that character. */
  lemma {:induction false} SplitPartsAvoidSep(s: string, sep: string)
    requires |sep| == 1
    ensures forall i :: 0 <= i < |SplitOn(s, sep)| ==> sep[0] !in SplitOn(s, sep)[i]
    decreases |s|
  {
    if |s| < |sep| {
    } else if s[..|sep|] == sep {
      SplitPartsAvoidSep(s[1..], sep);
    } else {
      SplitPartsAvoidSep(s[1..], sep);
      var rest := SplitOn(s[1..], sep);
      assert s[0] != sep[0] by { assert s[..1] == [s[0]]; }
      assert forall i :: 0 <= i < |rest| ==> sep[0] !in rest[i];
    }
  }

  /** With a one-character separator, splitting `a + sep + b` splits `a`
      and `b` separately. */
  lemma {:induction false} SplitAppend(a: string, sep: string, b: string)
    requires |sep| == 1
    ensures SplitOn(a + sep + b, sep) == SplitOn(a, sep) + SplitOn(b, sep)
    decreases |a|
  {
    if a == [] {
      assert a + sep + b == sep + b;
      SplitLeading(sep, b);
    } else {
      var rest := a[1..] + sep + b;
      assert a + sep + b == [a[0]] + rest;
      assert a == [a[0]] + a[1..];
      var sa := SplitOn(a[1..], sep);
      var sb := SplitOn(b, sep);
      SplitAppend(a[1..], sep, b);
      assert SplitOn(rest, sep) == sa + sb;
      SplitCons(a[0], rest, sep);
      SplitCons(a[0], a[1..], sep);
      if a[0] == sep[0] {
        assert SplitOn(a + sep + b, sep) == [[]] + (sa + sb);
        assert SplitOn(a, sep) == [[]] + sa;
        ConsAppend([], sa, sb);
      } else {
        var r := sa + sb;
        assert r[0] == sa[0] && r[1..] == sa[1..] + sb;
        assert SplitOn(a + sep + b, sep) == [[a[0]] + sa[0]] + (sa[1..] + sb);
        assert SplitOn(a, sep) == [[a[0]] + sa[0]] + sa[1..];
        ConsAppend([a[0]] + sa[0], sa[1..], sb);
      }
    }
  }

  lemma ConsAppend<T>(x: T, p: seq<T>, q: seq<T>)
    ensures [x] + (p + q) == ([x] + p) + q
  {
  }

  /** One step of a split at a one-character separator. */
  lemma SplitCons(c: char, rest: string, sep: string)
    requires |sep| == 1
    ensures c == sep[0] ==> SplitOn([c] + rest, sep) == [[]] + SplitOn(rest, sep)
    ensures c != sep[0] ==> SplitOn([c] + rest, sep) == [[c] + SplitOn(rest, sep)[0]] + SplitOn(rest, sep)[1..]
  {
    var s := [c] + rest;
    assert s[..1] == [c] && s[1..] == rest;
  }

  /** The last piece of a split is a suffix of the split string. */
  lemma {:induction false} JoinEndsWithLast(sep: string, parts: seq<string>)
    requires |parts| >= 1
    ensures var j := Join(sep, parts); |Last(parts)| <= |j| && j[|j| - |Last(parts)|..] == Last(parts)
    decreases |parts|
  {
    if |parts| > 1 {
      JoinEndsWithLast(sep, parts[1..]);
      assert Last(parts[1..]) == Last(parts);
    }
  }

  /** The joined string is: every part but the last, the separator, then
      the last part. */
  lemma {:induction false} JoinLast(sep: string, parts: seq<string>)
    requires |parts| >= 2
    ensures Join(sep, parts) == Join(sep, parts[..|parts| - 1]) + sep + Last(parts)
    decreases |parts|
  {
    var init := parts[..|parts| - 1];
    if |parts| == 2 {
      assert init == [parts[0]];
      assert parts[1..] == [parts[1]];
    } else {
      JoinLast(sep, parts[1..]);
      assert parts[1..][..|parts| - 2] == init[1..];
      assert Last(parts[1..]) == Last(parts);
      assert init[0] == parts[0];
    }
  }

  /** What `Join` places after the second part. */
  function JoinTail(sep: string, parts: seq<string>): string
    requires |parts| >= 2
  {
    if |parts| == 2 then [] else sep + Join(sep, parts[2..])
  }

  /** The joined string is: first part, separator, second part, the rest. */
  lemma JoinSecond(sep: string, parts: seq<string>)
    requires |parts| >= 2
    ensures Join(sep, parts) == parts[0] + sep + parts[1] + JoinTail(sep, parts)
  {
    assert parts[1..][1..] == parts[2..];
  }

  /** The longest prefix of `s` free of whitespace. */
  function Word(s: string): (w: string)
    ensures |w| <= |s| && w == s[..|w|]
    ensures NoSpace(w)
    ensures |w| < |s| ==> IsSpace(s[|w|])
    ensures s != [] && !IsSpace(s[0]) ==> |w| >= 1
    decreases |s|
  {
    if s == [] || IsSpace(s[0]) then [] else [s[0]] + Word(s[1..])
  }

  /** `s.split()` with no separator: the maximal runs of non-whitespace
      characters, in order; leading, trailing and repeated whitespace
      produce no empty words. */
  function Words(s: string): (ws: seq<string>)
    ensures forall i :: 0 <= i < |ws| ==> ws[i] != [] && NoSpace(ws[i])
    decreases |s|
  {
    if s == [] then []
    else if IsSpace(s[0]) then Words(s[1..])
    else
      var w := Word(s);
      [w] + Words(s[|w|..])
  }

  lemma {:induction false} WordBeforeSpace(w: string, rest: string)
    requires NoSpace(w)
    requires rest == [] || IsSpace(rest[0])
    ensures Word(w + rest) == w
    decreases |w|
  {
    if w == [] {
      assert w + rest == rest;
    } else {
      assert (w + rest)[1..] == w[1..] + rest;
      WordBeforeSpace(w[1..], rest);
    }
  }

  /** Joining whitespace-free, non-empty words with single spaces and
      splitting on whitespace again gives back the same words. */
  lemma {:induction false} WordsJoin(ws: seq<string>)
    requires forall i :: 0 <= i < |ws| ==> ws[i] != [] && NoSpace(ws[i])
    ensures Words(Join(" ", ws)) == ws
    decreases |ws|
  {
    if |ws| == 0 {
    } else if |ws| == 1 {
      WordBeforeSpace(ws[0], []);
      assert ws[0] + [] == ws[0];
      assert ws[0][|ws[0]|..] == [];
    } else {
      var rest := Join(" ", ws[1..]);
      var s := ws[0] + " " + rest;
      assert Join(" ", ws) == s;
      assert s == ws[0] + (" " + rest);
      WordBeforeSpace(ws[0], " " + rest);
      assert s[|ws[0]|..] == " " + rest;
      assert (" " + rest)[1..] == rest;
      WordsJoin(ws[1..]);
    }
  }

  /** `s.lstrip(chars)`: drop leading characters selected by `drop`. */
  function TrimStart(s: string, drop: char -> bool): (r: string)
    ensures |r| <= |s| && r == s[|s| - |r|..]
    ensures r != [] ==> !drop(r[0])
    ensures forall i :: 0 <= i < |s| - |r| ==> drop(s[i])
    decreases |s|
  {
    if s != [] && drop(s[0]) then TrimStart(s[1..], drop) else s
  }

  /** `s.rstrip(chars)`: drop trailing characters selected by `drop`. */
  function TrimEnd(s: string, drop: char -> bool): (r: string)
    ensures |r| <= |s| && r == s[..|r|]
    ensures r != [] ==> !drop(r[|r| - 1])
    ensures forall i :: |r| <= i < |s| ==> drop(s[i])
    decreases |s|
  {
    if s != [] && drop(s[|s| - 1]) then TrimEnd(s[..|s| - 1], drop) else s
  }

  /** `s.strip(chars)`. */
  function Strip(s: string, drop: char -> bool): string {
    TrimEnd(TrimStart(s, drop), drop)
  }

  /** Text already free of droppable characters at both ends is kept. */
  lemma StripKeeps(s: string, drop: char -> bool)
    requires s == [] || (!drop(s[0]) && !drop(s[|s| - 1]))
    ensures Strip(s, drop) == s
  {
    var a := TrimStart(s, drop);
    assert a == s;
  }

  predicate IsDash(c: char) {
    c == '-'
  }
}
