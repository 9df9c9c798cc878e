/** String operations the repository takes from Go's standard library, with the
    laws the other modules rely on.  One character stands for one byte of a Go
    string. */
module Text {
  datatype Option<+T> = None | Some(value: T)
  datatype Result<+T, +E> = Ok(value: T) | Err(error: E)

  // ---- lexicographic order (Go's < on strings) ----

  predicate Less(a: string, b: string) {
    if b == "" then false
    else if a == "" then true
    else a[0] < b[0] || (a[0] == b[0] && Less(a[1..], b[1..]))
  }

  lemma {:induction false} LessIrreflexive(a: string)
    ensures !Less(a, a)
  {
    if a != "" {
      LessIrreflexive(a[1..]);
    }
  }

  lemma {:induction false} LessTransitive(a: string, b: string, c: string)
    requires Less(a, b) && Less(b, c)
    ensures Less(a, c)
  {
    if a != "" && a[0] == b[0] && b[0] == c[0] {
      LessTransitive(a[1..], b[1..], c[1..]);
    }
  }

  lemma {:induction false} LessTotal(a: string, b: string)
    ensures Less(a, b) || Less(b, a) || a == b
  {
    if a != "" && b != "" && a[0] == b[0] {
      LessTotal(a[1..], b[1..]);
      assert a == [a[0]] + a[1..] && b == [b[0]] + b[1..];
    }
  }

  lemma LessAsymmetric(a: string, b: string)
    requires Less(a, b)
    ensures !Less(b, a)
  {
    if Less(b, a) {
      LessTransitive(a, b, a);
      LessIrreflexive(a);
    }
  }

  lemma {:induction false} LessExtended(a: string, b: string)
    requires b != ""
    ensures Less(a, a + b)
  {
    if a != "" {
      LessExtended(a[1..], b);
      assert (a + b)[1..] == a[1..] + b;
    }
  }

  lemma {:induction false} LessBehind(prefix: string, a: string, b: string)
    ensures Less(prefix + a, prefix + b) <==> Less(a, b)
  {
    if prefix == "" {
      assert prefix + a == a && prefix + b == b;
    } else {
      LessBehind(prefix[1..], a, b);
      assert (prefix + a)[1..] == prefix[1..] + a && (prefix + b)[1..] == prefix[1..] + b;
    }
  }

  // ---- sorted enumeration of a set of strings ----

  ghost predicate Ascending(s: seq<string>) {
    forall i, j :: 0 <= i < j < |s| ==> Less(s[i], s[j])
  }

  function Minimum(keys: set<string>): (least: string)
    requires keys != {}
    ensures least in keys
    ensures forall k :: k in keys && k != least ==> Less(least, k)
  {
    MinimumExists(keys);
    MinimumUnique(keys);
    var least :| least in keys && forall k :: k in keys && k != least ==> Less(least, k);
    least
  }

  lemma {:induction false} MinimumExists(keys: set<string>)
    requires keys != {}
    ensures exists m :: m in keys && forall k :: k in keys && k != m ==> Less(m, k)
    decreases |keys|
  {
    var x :| x in keys;
    var rest := keys - {x};
    if rest == {} {
      assert keys == {x};
    } else {
      MinimumExists(rest);
      var m :| m in rest && forall k :: k in rest && k != m ==> Less(m, k);
      LessTotal(m, x);
      if Less(m, x) {
        assert forall k :: k in keys && k != m ==> Less(m, k);
      } else {
        forall k | k in keys && k != x
          ensures Less(x, k)
        {
          if k != m {
            LessTransitive(x, m, k);
          }
        }
      }
    }
  }

  lemma MinimumUnique(keys: set<string>)
    ensures forall x, y | x in keys && y in keys ::
              (forall k :: k in keys && k != x ==> Less(x, k)) && (forall k :: k in keys && k != y ==> Less(y, k))
              ==> x == y
  {
    forall x, y | x in keys && y in keys && x != y && Less(x, y)
      ensures !Less(y, x)
    {
      LessAsymmetric(x, y);
    }
  }

  /** The elements of a set in Go's string order (sort.Strings over map keys). */
  function SortedKeys(keys: set<string>): (sorted: seq<string>)
    ensures forall k :: k in keys <==> k in sorted
    ensures Ascending(sorted)
    ensures |sorted| == |keys|
    decreases |keys|
  {
    if keys == {} then []
    else
      var least := Minimum(keys);
      [least] + SortedKeys(keys - {least})
  }

  lemma {:induction false} AscendingUnique(a: seq<string>, b: seq<string>)
    requires Ascending(a) && Ascending(b)
    requires forall k :: k in a <==> k in b
    ensures a == b
    decreases |a|
  {
    assert |b| == 0 || b[0] in b;
    if a != [] {
      assert a[0] in b && b[0] in a;
      HeadsAgree(a, b);
      forall k
        ensures k in a[1..] <==> k in b[1..]
      {
        TailMembers(a, k);
        TailMembers(b, k);
      }
      AscendingUnique(a[1..], b[1..]);
      assert a == [a[0]] + a[1..] && b == [b[0]] + b[1..];
    }
  }

  lemma HeadsAgree(a: seq<string>, b: seq<string>)
    requires Ascending(a) && Ascending(b) && a != [] && b != []
    requires a[0] in b && b[0] in a
    ensures a[0] == b[0]
  {
    if a[0] != b[0] {
      assert Less(a[0], b[0]);
      assert Less(b[0], a[0]);
      LessAsymmetric(a[0], b[0]);
    }
  }

  lemma TailMembers(a: seq<string>, k: string)
    requires Ascending(a) && a != []
    ensures k in a[1..] <==> k in a && k != a[0]
  {
    if k in a[1..] {
      LessIrreflexive(k);
    }
  }

  // ---- sorting a list ----

  function InsertSorted(sorted: seq<string>, name: string): seq<string> {
    if sorted == [] || Less(name, sorted[0]) then [name] + sorted else [sorted[0]] + InsertSorted(sorted[1..], name)
  }

  /** sort.Strings. */
  function SortStrings(names: seq<string>): seq<string> {
    if names == [] then [] else InsertSorted(SortStrings(names[..|names| - 1]), names[|names| - 1])
  }

  predicate InOrder(names: seq<string>) {
    forall i, j :: 0 <= i < j < |names| ==> !Less(names[j], names[i])
  }

  lemma {:induction false} InsertedStrings(sorted: seq<string>, name: string)
    ensures multiset(InsertSorted(sorted, name)) == multiset(sorted) + multiset{name}
  {
    hide Less;
    if sorted != [] && !Less(name, sorted[0]) {
      InsertedStrings(sorted[1..], name);
      assert sorted == [sorted[0]] + sorted[1..];
    }
  }

  lemma NotBeforeFirst(sorted: seq<string>, name: string, s: string)
    requires InOrder(sorted) && sorted != [] && !Less(name, sorted[0]) && s in InsertSorted(sorted[1..], name)
    ensures !Less(s, sorted[0])
  {
    hide Less, InsertSorted;
    InsertedStrings(sorted[1..], name);
    assert s in multiset(InsertSorted(sorted[1..], name));
    if s != name {
      assert s in multiset(sorted[1..]);
      var k :| 0 <= k < |sorted[1..]| && sorted[1..][k] == s;
      assert sorted[k + 1] == s;
    }
  }

  lemma NothingBefore(sorted: seq<string>, name: string)
    requires InOrder(sorted) && sorted != [] && Less(name, sorted[0])
    ensures InOrder([name] + sorted)
  {
    hide Less;
    forall j | 0 <= j < |sorted|
      ensures !Less(sorted[j], name)
    {
      LessIrreflexive(sorted[0]);
      if Less(sorted[j], name) {
        LessTransitive(sorted[j], name, sorted[0]);
      }
    }
  }

  lemma {:induction false} InsertKeepsOrder(sorted: seq<string>, name: string)
    requires InOrder(sorted)
    ensures InOrder(InsertSorted(sorted, name))
    ensures multiset(InsertSorted(sorted, name)) == multiset(sorted) + multiset{name}
  {
    hide Less;
    InsertedStrings(sorted, name);
    if sorted == [] {
    } else if Less(name, sorted[0]) {
      NothingBefore(sorted, name);
    } else {
      InsertKeepsOrder(sorted[1..], name);
      var tail := InsertSorted(sorted[1..], name);
      forall j | 0 <= j < |tail|
        ensures !Less(tail[j], sorted[0])
      {
        NotBeforeFirst(sorted, name, tail[j]);
      }
    }
  }

  lemma {:induction false} SortStringsSorts(names: seq<string>)
    ensures InOrder(SortStrings(names))
    ensures multiset(SortStrings(names)) == multiset(names)
  {
    if names != [] {
      SortStringsSorts(names[..|names| - 1]);
      InsertKeepsOrder(SortStrings(names[..|names| - 1]), names[|names| - 1]);
      assert names == names[..|names| - 1] + [names[|names| - 1]];
    }
  }

  // ---- split, join, trim ----

  /** strings.Split with a one-character separator; never empty. */
  function Split(s: string, separator: char): (parts: seq<string>)
    ensures |parts| >= 1
    ensures forall p :: p in parts ==> separator !in p
  {
    if s == "" then [""]
    else
      var rest := Split(s[1..], separator);
      if s[0] == separator then [""] + rest else [[s[0]] + rest[0]] + rest[1..]
  }

  function Join(parts: seq<string>, separator: string): string {
    if parts == [] then ""
    else if |parts| == 1 then parts[0]
    else parts[0] + separator + Join(parts[1..], separator)
  }

  lemma {:induction false} JoinSplit(s: string, separator: char)
    ensures Join(Split(s, separator), [separator]) == s
  {
    if s != "" {
      JoinSplit(s[1..], separator);
      var rest := Split(s[1..], separator);
      if s[0] == separator {
        assert ([""] + rest)[1..] == rest;
        assert s == [s[0]] + s[1..];
      } else {
        var parts := [[s[0]] + rest[0]] + rest[1..];
        assert parts[1..] == rest[1..];
        assert Join(parts, [separator]) == [s[0]] + Join(rest, [separator]);
      }
    }
  }

  lemma {:induction false} SplitCons(head: string, tail: string, separator: char)
    requires separator !in head
    ensures Split(head + [separator] + tail, separator) == [head] + Split(tail, separator)
  {
    var s := head + [separator] + tail;
    if head == "" {
      assert s[1..] == tail;
    } else {
      assert s[1..] == head[1..] + [separator] + tail;
      SplitCons(head[1..], tail, separator);
      assert [head[0]] + head[1..] == head;
      assert Split(s, separator) == [[s[0]] + head[1..]] + Split(tail, separator);
    }
  }

  lemma {:induction false} SplitWhole(s: string, separator: char)
    requires separator !in s
    ensures Split(s, separator) == [s]
  {
    if s != "" {
      SplitWhole(s[1..], separator);
      assert s == [s[0]] + s[1..];
    }
  }

  lemma {:induction false} SplitJoin(parts: seq<string>, separator: char)
    requires |parts| >= 1
    requires forall p :: p in parts ==> separator !in p
    ensures Split(Join(parts, [separator]), separator) == parts
  {
    if |parts| == 1 {
      SplitWhole(parts[0], separator);
    } else {
      SplitJoin(parts[1..], separator);
      SplitCons(parts[0], Join(parts[1..], [separator]), separator);
    }
  }

  function TrimPrefix(s: string, prefix: string): string {
    if prefix <= s then s[|prefix|..] else s
  }

  /** strings.Contains. */
  predicate Contains(s: string, part: string) {
    exists i :: 0 <= i <= |s| && part <= s[i..]
  }

  /** strings.TrimLeft with a one-character cutset. */
  function TrimLeft(s: string, c: char): string {
    if s != "" && s[0] == c then TrimLeft(s[1..], c) else s
  }

  function TrimRight(s: string, c: char): string {
    if s != "" && s[|s| - 1] == c then TrimRight(s[..|s| - 1], c) else s
  }

  function TrimBoth(s: string, c: char): string {
    TrimRight(TrimLeft(s, c), c)
  }

  // ---- strings.TrimSpace: Unicode white space in its UTF-8 bytes ----

  /** The UTF-8 encoding of one white-space code point. */
  predicate IsSpace(r: string) {
    || (|r| == 1 && (9 <= r[0] as int <= 13 || r[0] == ' '))
    || (|r| == 2 && r[0] as int == 0xC2 && (r[1] as int == 0x85 || r[1] as int == 0xA0))
    || (|r| == 3 && r[0] as int == 0xE1 && r[1] as int == 0x9A && r[2] as int == 0x80)
    || (|r| == 3 && r[0] as int == 0xE2 && r[1] as int == 0x80
        && (0x80 <= r[2] as int <= 0x8A || r[2] as int == 0xA8 || r[2] as int == 0xA9 || r[2] as int == 0xAF))
    || (|r| == 3 && r[0] as int == 0xE2 && r[1] as int == 0x81 && r[2] as int == 0x9F)
    || (|r| == 3 && r[0] as int == 0xE3 && r[1] as int == 0x80 && r[2] as int == 0x80)
  }

  predicate StartsInSpace(s: string, n: nat) { n <= |s| && IsSpace(s[..n]) }

  predicate EndsInSpace(s: string, n: nat) { n <= |s| && IsSpace(s[|s| - n..]) }

  /** Drops white space from the start; n is the shortest encoding still to be
      tried at the present start. */
  function TrimHead(s: string, n: nat): string
    requires n >= 1
    decreases |s|, 4 - n
  {
    if n > 3 || n > |s| then s
    else if IsSpace(s[..n]) then TrimHead(s[n..], 1)
    else TrimHead(s, n + 1)
  }

  function TrimTail(s: string, n: nat): string
    requires n >= 1
    decreases |s|, 4 - n
  {
    if n > 3 || n > |s| then s
    else if IsSpace(s[|s| - n..]) then TrimTail(s[..|s| - n], 1)
    else TrimTail(s, n + 1)
  }

  function TrimSpace(s: string): string {
    TrimTail(TrimHead(s, 1), 1)
  }

  predicate HeadClear(s: string) { forall n: nat :: 1 <= n <= 3 ==> !StartsInSpace(s, n) }

  predicate TailClear(s: string) { forall n: nat :: 1 <= n <= 3 ==> !EndsInSpace(s, n) }

  predicate Trimmed(s: string) { HeadClear(s) && TailClear(s) }

  lemma {:induction false} TrimHeadClears(s: string, n: nat)
    requires n >= 1 && forall k: nat :: 1 <= k < n ==> !StartsInSpace(s, k)
    ensures var t := TrimHead(s, n); HeadClear(t) && |t| <= |s| && s[|s| - |t|..] == t
    decreases |s|, 4 - n
  {
    hide IsSpace;
    if n <= 3 && n <= |s| {
      if StartsInSpace(s, n) {
        TrimHeadClears(s[n..], 1);
      } else {
        TrimHeadClears(s, n + 1);
      }
    }
  }

  lemma {:induction false} TrimTailClears(s: string, n: nat)
    requires n >= 1 && forall k: nat :: 1 <= k < n ==> !EndsInSpace(s, k)
    ensures TailClear(TrimTail(s, n)) && TrimTail(s, n) <= s
    decreases |s|, 4 - n
  {
    hide IsSpace;
    if n <= 3 && n <= |s| {
      if EndsInSpace(s, n) {
        TrimTailClears(s[..|s| - n], 1);
      } else {
        TrimTailClears(s, n + 1);
      }
    }
  }

  lemma {:induction false} ClearIsKept(s: string, n: nat)
    requires n >= 1
    ensures HeadClear(s) ==> TrimHead(s, n) == s
    ensures TailClear(s) ==> TrimTail(s, n) == s
    decreases 4 - n
  {
    hide IsSpace;
    if n <= 3 && n <= |s| {
      assert HeadClear(s) ==> !StartsInSpace(s, n);
      assert TailClear(s) ==> !EndsInSpace(s, n);
      ClearIsKept(s, n + 1);
    }
  }

  /** A printable ASCII byte is no part of white space. */
  predicate Graphic(c: char) { '!' <= c <= '~' }

  lemma GraphicIsNotSpace(r: string, i: nat)
    requires i < |r| && Graphic(r[i])
    ensures !IsSpace(r)
  {
  }

  lemma GraphicEndsTrimmed(s: string)
    requires s != "" && Graphic(s[0]) && Graphic(s[|s| - 1])
    ensures Trimmed(s)
  {
    hide IsSpace;
    forall n: nat | 1 <= n <= 3
      ensures !StartsInSpace(s, n) && !EndsInSpace(s, n)
    {
      if n <= |s| {
        GraphicIsNotSpace(s[..n], 0);
        GraphicIsNotSpace(s[|s| - n..], n - 1);
      }
    }
  }

  /** The result of TrimSpace is a trimmed piece of its argument. */
  lemma TrimSpaceIsTrimmed(s: string)
    ensures Trimmed(TrimSpace(s))
    ensures exists i, j :: 0 <= i <= j <= |s| && TrimSpace(s) == s[i..j]
  {
    hide IsSpace;
    var left := TrimHead(s, 1);
    var t := TrimSpace(s);
    TrimHeadClears(s, 1);
    TrimTailClears(left, 1);
    forall n: nat | 1 <= n <= 3
      ensures !StartsInSpace(t, n)
    {
      if n <= |t| {
        assert t[..n] == left[..n];
        assert !StartsInSpace(left, n);
      }
    }
    assert t == s[|s| - |left|..|s| - |left| + |t|];
  }

  lemma TrimSpaceOfTrimmed(s: string)
    requires Trimmed(s)
    ensures TrimSpace(s) == s
  {
    hide IsSpace;
    ClearIsKept(s, 1);
  }

  lemma TrimSpaceIdempotent(s: string)
    ensures TrimSpace(TrimSpace(s)) == TrimSpace(s)
  {
    TrimSpaceIsTrimmed(s);
    TrimSpaceOfTrimmed(TrimSpace(s));
  }

  /** ASCII case folding. */
  function Lower(s: string): (t: string)
    ensures |t| == |s|
  {
    if s == "" then ""
    else [if 'A' <= s[0] <= 'Z' then (s[0] as int + 32) as char else s[0]] + Lower(s[1..])
  }
}
