/** The string operations the source takes from Python: strip, split, join, startswith. */
module Text {
  import opened Basics

  // The characters str.strip removes.
  predicate IsSpace(c: char) {
    '\t' <= c <= '\r' || '\U{1C}' <= c <= ' ' || c == '\U{85}' || c == '\U{A0}' || c == '\U{1680}'
    || '\U{2000}' <= c <= '\U{200A}' || c == '\U{2028}' || c == '\U{2029}' || c == '\U{202F}' || c == '\U{205F}'
    || c == '\U{3000}'
  }

  // not s.strip()
  predicate Blank(s: string) {
    forall i :: 0 <= i < |s| ==> IsSpace(s[i])
  }

  // s.strip()
  function Strip(s: string): (r: string)
    ensures r == "" <==> Blank(s)
    ensures r != "" ==> !IsSpace(r[0]) && !IsSpace(r[|r| - 1])
  {
    if s == "" then ""
    else if IsSpace(s[0]) then Strip(s[1..])
    else if IsSpace(s[|s| - 1]) then Strip(s[..|s| - 1])
    else s
  }

  predicate Truthy(s: Option<string>) {
    s.Some? && s.value != ""
  }

  predicate StartsWith(s: string, prefix: string) {
    prefix <= s
  }

  // s.split(".")
  function Split(s: string): (parts: seq<string>)
    ensures |parts| >= 1
  {
    if s == "" then [""]
    else
      var rest := Split(s[1..]);
      if s[0] == '.' then [""] + rest else [[s[0]] + rest[0]] + rest[1..]
  }

  // ".".join(parts)
  function Join(parts: seq<string>): string {
    if parts == [] then ""
    else if |parts| == 1 then parts[0]
    else parts[0] + "." + Join(parts[1..])
  }

  /** Joining undoes splitting. */
  lemma {:induction false} JoinSplit(s: string)
    ensures Join(Split(s)) == s
  {
    if s != "" {
      var rest := Split(s[1..]);
      JoinSplit(s[1..]);
      assert ([""] + rest)[1..] == rest;
      assert ([[s[0]] + rest[0]] + rest[1..])[1..] == rest[1..];
    }
  }

  lemma {:induction false} JoinLast(parts: seq<string>)
    requires |parts| >= 2
    ensures Join(parts) == Join(parts[..|parts| - 1]) + "." + parts[|parts| - 1]
  {
    var n := |parts| - 1;
    if n > 1 {
      JoinLast(parts[1..]);
      assert parts[1..][..n - 1] == parts[..n][1..];
    }
  }

  lemma {:induction false} SplitAfterFirst(head: string, tail: string)
    requires '.' !in head
    ensures Split(head + "." + tail) == [head] + Split(tail)
  {
    var s := head + "." + tail;
    if head == "" {
      assert s[1..] == tail;
    } else {
      SplitAfterFirst(head[1..], tail);
      assert s[1..] == head[1..] + "." + tail;
      assert head == [head[0]] + head[1..];
    }
  }

  // What the parts of a split say about its ends and its dots.
  lemma {:induction false} SplitEnds(s: string)
    ensures var parts := Split(s);
      && (|parts| >= 2 <==> '.' in s)
      && (parts[0] != "" <==> s != "" && s[0] != '.')
      && (parts[|parts| - 1] != "" <==> s != "" && s[|s| - 1] != '.')
  {
    if s != "" {
      SplitEnds(s[1..]);
      assert s == [s[0]] + s[1..];
    }
  }

  // Three parts or more put together again, the middle ones behind a given prefix.
  function Rebuilt(prefix: string, parts: seq<string>): string
    requires |parts| >= 3
  {
    var n := |parts|;
    if n == 3 then parts[0] + "." + parts[1] + "." + parts[2]
    else prefix + Join(parts[1..n - 1]) + "." + parts[n - 1]
  }

  lemma RebuiltIsJoin(prefix: string, parts: seq<string>)
    requires |parts| >= 3 && prefix == parts[0] + "."
    ensures Rebuilt(prefix, parts) == prefix + Join(parts[1..])
  {
    var tail, k := parts[1..], |parts| - 2;
    JoinLast(tail);
    assert tail[..k] == parts[1..|parts| - 1];
    var middle, last := Join(tail[..k]), tail[k];
    assert prefix + middle + "." + last == prefix + (middle + "." + last);
    if k == 1 {
      assert tail[..1] == [tail[0]];
      assert middle == parts[1];
    }
  }

  lemma SplitParts(prefix: string, head: string, rest: string)
    requires '.' !in head && prefix == head + "."
    ensures var parts := Split(prefix + rest);
      && parts[0] == head && parts[1..] == Split(rest)
      && (|parts| >= 3 <==> '.' in rest)
      && (|parts| >= 3 ==>
           && (parts[1] != "" <==> rest[0] != '.')
           && (parts[|parts| - 1] != "" <==> rest[|rest| - 1] != '.'))
  {
    SplitAfterFirst(head, rest);
    SplitEnds(rest);
  }

  /** Splitting a dotted string and rebuilding it gives the string back. */
  lemma SplitRebuild(prefix: string, head: string, rest: string)
    requires '.' !in head && prefix == head + "." && '.' in rest
    ensures |Split(prefix + rest)| >= 3
    ensures Rebuilt(prefix, Split(prefix + rest)) == prefix + rest
  {
    SplitParts(prefix, head, rest);
    RebuiltIsJoin(prefix, Split(prefix + rest));
    JoinSplit(rest);
  }
}
