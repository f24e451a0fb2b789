/** The handful of Go `strings` operations the core relies on, on `seq<char>`. */
module Strs {

  /** `strings.HasPrefix(s, p)`. */
  predicate HasPrefix(s: string, p: string) {
    |p| <= |s| && s[..|p|] == p
  }

  /** `strings.TrimPrefix(s, p)`: drops `p` from the front of `s` when it is there. */
  function TrimPrefix(s: string, p: string): (r: string)
    ensures HasPrefix(s, p) ==> p + r == s
    ensures !HasPrefix(s, p) ==> r == s
  {
    if HasPrefix(s, p) then s[|p|..] else s
  }

  /** Trimming a prefix that was put there returns what followed it. */
  lemma TrimPrefixOfConcat(p: string, rest: string)
    ensures HasPrefix(p + rest, p)
    ensures TrimPrefix(p + rest, p) == rest
  {
    assert (p + rest)[..|p|] == p;
    assert (p + rest)[|p|..] == rest;
  }

  /** Index of the first occurrence of `c` in `s`, or |s| when there is none. */
  function IndexOf(s: string, c: char): (i: nat)
    ensures i <= |s|
    ensures i < |s| ==> s[i] == c
    ensures forall j :: 0 <= j < i ==> s[j] != c
  {
    if |s| == 0 then 0
    else if s[0] == c then 0
    else 1 + IndexOf(s[1..], c)
  }

  /** `strings.Split(s, string(sep))`: the pieces between occurrences of `sep`; never empty. */
  function Split(s: string, sep: char): (parts: seq<string>)
    ensures |parts| >= 1
    ensures forall k :: 0 <= k < |parts| ==> sep !in parts[k]
    decreases |s|
  {
    var i := IndexOf(s, sep);
    if i == |s| then [s]
    else [s[..i]] + Split(s[i + 1..], sep)
  }

  /** `strings.Join(parts, string(sep))`. */
  function Join(parts: seq<string>, sep: char): string
  {
    if |parts| == 0 then ""
    else if |parts| == 1 then parts[0]
    else parts[0] + [sep] + Join(parts[1..], sep)
  }

  /** Splitting a join of separator-free pieces gives the pieces back. */
  lemma {:induction false} SplitJoin(parts: seq<string>, sep: char)
    requires |parts| >= 1
    requires forall k :: 0 <= k < |parts| ==> sep !in parts[k]
    ensures Split(Join(parts, sep), sep) == parts
    decreases |parts|
  {
    if |parts| == 1 {
      assert Join(parts, sep) == parts[0];
      NoSepIndex(parts[0], sep);
    } else {
      var s := Join(parts, sep);
      var rest := Join(parts[1..], sep);
      assert s == parts[0] + [sep] + rest;
      NoSepIndex(parts[0], sep);
      assert s == parts[0] + ([sep] + rest);
      PrefixIndex(parts[0], [sep] + rest, sep);
      assert IndexOf(s, sep) == |parts[0]|;
      assert s[..|parts[0]|] == parts[0];
      assert s[|parts[0]| + 1..] == rest;
      SplitJoin(parts[1..], sep);
    }
  }

  lemma {:induction false} NoSepIndex(s: string, c: char)
    requires c !in s
    ensures IndexOf(s, c) == |s|
    decreases |s|
  {
    if |s| > 0 {
      assert s[0] != c;
      assert c !in s[1..];
      NoSepIndex(s[1..], c);
    }
  }

  lemma {:induction false} PrefixIndex(a: string, b: string, c: char)
    requires c !in a
    requires |b| > 0 && b[0] == c
    ensures IndexOf(a + b, c) == |a|
    decreases |a|
  {
    if |a| == 0 {
      assert a + b == b;
    } else {
      assert (a + b)[0] == a[0] && a[0] != c;
      assert (a + b)[1..] == a[1..] + b;
      assert c !in a[1..];
      PrefixIndex(a[1..], b, c);
    }
  }

  /** Decimal digits of `n`, as `%d` prints it. */
  function NatToString(n: nat): (s: string)
    ensures |s| >= 1
    ensures forall k :: 0 <= k < |s| ==> '0' <= s[k] <= '9'
    decreases n
  {
    var d := [(n % 10 + 48) as char];
    if n < 10 then d else NatToString(n / 10) + d
  }

  /** `strings.SplitN(s, string(sep), n)` for n >= 1: at most n pieces, the last holding
      the rest of `s`, separators included. */
  function SplitN(s: string, sep: char, n: nat): (parts: seq<string>)
    requires n >= 1
    ensures 1 <= |parts| <= n
    ensures forall k :: 0 <= k < |parts| - 1 ==> sep !in parts[k]
    decreases n
  {
    var i := IndexOf(s, sep);
    if n == 1 || i == |s| then [s]
    else [s[..i]] + SplitN(s[i + 1..], sep, n - 1)
  }

  /** The number of occurrences of `c` in `s` (`strings.Count` for one character). */
  function CountChar(s: string, c: char): nat
  {
    if |s| == 0 then 0 else (if s[0] == c then 1 else 0) + CountChar(s[1..], c)
  }

  /** SplitN yields one piece more than there are separators, up to n. */
  lemma {:induction false} SplitNLength(s: string, sep: char, n: nat)
    requires n >= 1
    ensures |SplitN(s, sep, n)| == if CountChar(s, sep) + 1 < n then CountChar(s, sep) + 1 else n
    decreases n
  {
    var i := IndexOf(s, sep);
    CountSplitAt(s, sep, i);
    if n > 1 && i < |s| {
      SplitNLength(s[i + 1..], sep, n - 1);
    }
  }

  /** Cutting at the first separator: none before it, one at it. */
  lemma {:induction false} CountSplitAt(s: string, c: char, i: nat)
    requires i == IndexOf(s, c)
    ensures i == |s| ==> CountChar(s, c) == 0
    ensures i < |s| ==> CountChar(s, c) == 1 + CountChar(s[i + 1..], c)
    decreases |s|
  {
    if |s| > 0 && s[0] != c {
      CountSplitAt(s[1..], c, IndexOf(s[1..], c));
      if i < |s| {
        assert s[1..][i - 1 + 1..] == s[i + 1..];
      }
    }
  }

  /** SplitN undoes a join whose pieces, all but the last, are free of the separator. */
  lemma {:induction false} SplitNJoin(parts: seq<string>, sep: char)
    requires |parts| >= 1
    requires forall k :: 0 <= k < |parts| - 1 ==> sep !in parts[k]
    ensures SplitN(Join(parts, sep), sep, |parts|) == parts
    decreases |parts|
  {
    if |parts| > 1 {
      TailSeparatorFree(parts, sep);
      SplitNJoin(parts[1..], sep);
      SplitNFirst(parts, sep);
    }
  }

  /** Dropping the first piece keeps all but the last free of the separator. */
  lemma TailSeparatorFree(parts: seq<string>, sep: char)
    requires |parts| > 1
    requires forall k :: 0 <= k < |parts| - 1 ==> sep !in parts[k]
    ensures sep !in parts[0]
    ensures forall k :: 0 <= k < |parts[1..]| - 1 ==> sep !in parts[1..][k]
  {
  }

  /** SplitN of a join cuts off the first piece and, given that the join of the others
      splits back into them, gives all the pieces back. */
  lemma SplitNFirst(parts: seq<string>, sep: char)
    requires |parts| > 1 && sep !in parts[0]
    requires SplitN(Join(parts[1..], sep), sep, |parts| - 1) == parts[1..]
    ensures SplitN(Join(parts, sep), sep, |parts|) == parts
  {
    var rest := Join(parts[1..], sep);
    assert Join(parts, sep) == parts[0] + [sep] + rest;
    CutAtFirst(parts[0], rest, sep);
    assert [parts[0]] + parts[1..] == parts;
  }

  /** The first separator of `a + [sep] + rest` is the one after `a` when `a` has none. */
  lemma CutAtFirst(a: string, rest: string, sep: char)
    requires sep !in a
    ensures IndexOf(a + [sep] + rest, sep) == |a|
    ensures (a + [sep] + rest)[..|a|] == a
    ensures (a + [sep] + rest)[|a| + 1..] == rest
  {
    assert a + [sep] + rest == a + ([sep] + rest);
    PrefixIndex(a, [sep] + rest, sep);
  }
}
