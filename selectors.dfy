/**
 * The syntax of data selectors: colon-separated paths such as `node:tags:0`.
 * `Split` is PHP's `explode(':', s)`, `SplitFirst` is `explode(':', s, 2)`,
 * and `IsDigits` is `ctype_digit` applied to a string.
 */
module Selectors {
  import opened Wrappers

  /** The separator between the segments of a data selector. */
  const Sep: char := ':'

  /** The segments of `s`, cut at every separator (`explode(':', s)`). */
  function Split(s: string): (parts: seq<string>)
    ensures |parts| >= 1
    ensures forall i :: 0 <= i < |parts| ==> Sep !in parts[i]
    decreases |s|
  {
    if s == [] then [[]]
    else
      var tail := Split(s[1..]);
      if s[0] == Sep then [[]] + tail
      else [[s[0]] + tail[0]] + tail[1..]
  }

  /** The segments glued back together with the separator (`implode(':', parts)`). */
  function Join(parts: seq<string>): string
    requires |parts| >= 1
  {
    if |parts| == 1 then parts[0] else parts[0] + [Sep] + Join(parts[1..])
  }

  /**
   * `explode(':', s, 2)`: the text before the first separator and, when there
   * is a separator, everything after it.
   */
  function SplitFirst(s: string): (r: (string, Option<string>))
    ensures Sep !in r.0
    ensures r.1.None? ==> r.0 == s
    ensures r.1.Some? ==> s == r.0 + [Sep] + r.1.value
  {
    if s == [] then ([], None)
    else if s[0] == Sep then ([], Some(s[1..]))
    else
      var t := SplitFirst(s[1..]);
      ([s[0]] + t.0, t.1)
  }

  /** `ctype_digit` on a string: non-empty and made of decimal digits only. */
  predicate IsDigits(s: string) {
    |s| > 0 && forall i :: 0 <= i < |s| ==> '0' <= s[i] <= '9'
  }

  /** Joining the segments of a selector gives the selector back. */
  lemma {:induction false} SplitJoin(s: string)
    ensures Join(Split(s)) == s
    decreases |s|
  {
    if s != [] {
      SplitJoin(s[1..]);
      var tail := Split(s[1..]);
      if s[0] == Sep {
        assert Split(s) == [[]] + tail;
        assert Join(Split(s)) == [] + [Sep] + Join(tail);
      } else if |tail| == 1 {
        assert Join(Split(s)) == [s[0]] + tail[0];
      } else {
        var parts := Split(s);
        assert parts[1..] == tail[1..];
        assert Join(tail) == tail[0] + [Sep] + Join(tail[1..]);
        assert Join(parts) == [s[0]] + tail[0] + [Sep] + Join(tail[1..]);
      }
    }
  }

  /** A string without separators is a single segment. */
  lemma {:induction false} SplitNoSep(h: string)
    requires Sep !in h
    ensures Split(h) == [h]
    decreases |h|
  {
    if h != [] {
      assert h[0] in h;
      assert forall c :: c in h[1..] ==> c in h;
      SplitNoSep(h[1..]);
      assert [h[0]] + h[1..] == h;
    }
  }

  /** A separator-free head followed by a separator is the first segment. */
  lemma {:induction false} SplitPrefix(h: string, rest: string)
    requires Sep !in h
    ensures Split(h + [Sep] + rest) == [h] + Split(rest)
    decreases |h|
  {
    var s := h + [Sep] + rest;
    if h == [] {
      assert s[1..] == rest;
    } else {
      assert h[0] in h;
      assert forall c :: c in h[1..] ==> c in h;
      assert s[1..] == h[1..] + [Sep] + rest;
      SplitPrefix(h[1..], rest);
      assert [h[0]] + h[1..] == h;
    }
  }

  /** Splitting a join of separator-free segments gives the segments back. */
  lemma {:induction false} JoinSplit(parts: seq<string>)
    requires |parts| >= 1
    requires forall i :: 0 <= i < |parts| ==> Sep !in parts[i]
    ensures Split(Join(parts)) == parts
    decreases |parts|
  {
    if |parts| == 1 {
      SplitNoSep(parts[0]);
    } else {
      JoinSplit(parts[1..]);
      SplitPrefix(parts[0], Join(parts[1..]));
      assert [parts[0]] + parts[1..] == parts;
    }
  }

  /** Appending one more segment appends it to the split. */
  lemma {:induction false} SplitAppend(s: string, name: string)
    requires Sep !in name
    ensures Split(s + [Sep] + name) == Split(s) + [name]
    decreases |s|
  {
    var t := s + [Sep] + name;
    if s == [] {
      assert t == [] + [Sep] + name;
      SplitPrefix([], name);
      SplitNoSep(name);
    } else {
      assert t[1..] == s[1..] + [Sep] + name;
      SplitAppend(s[1..], name);
      var tail := Split(s[1..]);
      if s[0] != Sep {
        assert (tail + [name])[1..] == tail[1..] + [name];
      }
    }
  }

  /** `explode(':', s, 2)` cuts at the first separator, whatever follows it. */
  lemma {:induction false} SplitFirstAt(h: string, rest: string)
    requires Sep !in h
    ensures SplitFirst(h + [Sep] + rest) == (h, Some(rest))
    decreases |h|
  {
    var s := h + [Sep] + rest;
    if h != [] {
      assert h[0] in h;
      assert forall c :: c in h[1..] ==> c in h;
      assert s[1..] == h[1..] + [Sep] + rest;
      SplitFirstAt(h[1..], rest);
      assert [h[0]] + h[1..] == h;
    }
  }

  /**
   * Exploding with limit 2 and then exploding the remainder gives the same
   * segments as exploding the whole selector at once.
   */
  lemma SplitFirstAgreesWithSplit(s: string)
    ensures var (head, rest) := SplitFirst(s);
            Split(s) == [head] + (if rest.Some? then Split(rest.value) else [])
  {
    var (head, rest) := SplitFirst(s);
    if rest.Some? {
      SplitPrefix(head, rest.value);
    } else {
      SplitNoSep(head);
    }
  }
}
