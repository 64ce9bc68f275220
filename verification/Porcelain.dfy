/** `parsePorcelainZ` of `scripts/agent-lease.ts`: the touched paths of `git status --porcelain=v1 -z`.
    Strings are sequences of UTF-16 code units, because that is the order `sort()` uses. */
module Porcelain {
  import opened Wrappers

  type CodeUnit = u: int | 0 <= u < 0x1_0000
  type Text = seq<CodeUnit>

  const NUL: CodeUnit := 0
  const SPACE: CodeUnit := 32
  const COPIED: CodeUnit := 67
  const RENAMED: CodeUnit := 82

  /** `split('\0')`. */
  function Split(s: Text): (fields: seq<Text>)
    ensures |fields| > 0
  {
    SplitFrom(s, [])
  }

  function SplitFrom(s: Text, field: Text): (fields: seq<Text>)
    ensures |fields| > 0
  {
    if s == [] then [field]
    else if s[0] == NUL then [field] + SplitFrom(s[1..], [])
    else SplitFrom(s[1..], field + [s[0]])
  }

  function NonEmpty(fields: seq<Text>): seq<Text> {
    if fields == [] then []
    else (if fields[0] == [] then [] else [fields[0]]) + NonEmpty(fields[1..])
  }

  /** The status of a field says that an origin field follows. */
  predicate HasOrigin(field: Text)
    requires |field| >= 2
  {
    field[0] == RENAMED || field[1] == RENAMED || field[0] == COPIED || field[1] == COPIED
  }

  /** How many fields the entry that starts with `field` takes. */
  function Width(field: Text): nat {
    if |field| >= 4 && HasOrigin(field) then 2 else 1
  }

  /** The target paths of the entries in `fields`, in order. */
  function Targets(fields: seq<Text>): seq<Text>
    decreases |fields|
  {
    if fields == [] then []
    else (if |fields[0]| < 4 then [] else [fields[0][3..]]) + Targets(Drop(fields, Width(fields[0])))
  }

  function Drop(fields: seq<Text>, n: nat): seq<Text> {
    if n <= |fields| then fields[n..] else []
  }

  predicate LexLeq(a: Text, b: Text) {
    a == [] || (b != [] && (a[0] < b[0] || (a[0] == b[0] && LexLeq(a[1..], b[1..]))))
  }

  predicate IsSorted(paths: seq<Text>) {
    forall i, j | 0 <= i < j < |paths| :: LexLeq(paths[i], paths[j])
  }

  function Insert(path: Text, sorted: seq<Text>): seq<Text> {
    if sorted == [] || LexLeq(path, sorted[0]) then [path] + sorted
    else [sorted[0]] + Insert(path, sorted[1..])
  }

  /** `sort()`. */
  function Sort(paths: seq<Text>): seq<Text> {
    if paths == [] then [] else Insert(paths[0], Sort(paths[1..]))
  }

  method ParsePorcelainZ(payload: Text) returns (paths: seq<Text>)
    ensures IsSorted(paths)
    ensures multiset(paths) == multiset(Targets(NonEmpty(Split(payload))))
  {
    var fields := NonEmpty(Split(payload));
    paths := CollectTargets(fields);
    SortIsSorted(paths);
    paths := Sort(paths);
  }

  method CollectTargets(fields: seq<Text>) returns (paths: seq<Text>)
    ensures paths == Targets(fields)
  {
    paths := [];
    var i := 0;
    while i < |fields|
      invariant 0 <= i
      invariant Targets(fields) == paths + Targets(Drop(fields, i))
    {
      var field := fields[i];
      TargetsStep(paths, fields, i);
      if |field| < 4 {
        i := i + 1;
        continue;
      }
      var path := field[3..];
      paths := paths + [path];
      if HasOrigin(field) {
        i := i + 1;
      }
      i := i + 1;
    }
  }

  lemma AppendOne(paths: seq<Text>, path: Text, more: seq<Text>)
    ensures paths + ([path] + more) == (paths + [path]) + more
  {
  }

  /** What the entry at field `i` adds to the targets collected so far. */
  lemma TargetsStep(paths: seq<Text>, fields: seq<Text>, i: nat)
    requires i < |fields|
    ensures var field := fields[i]; var more := Targets(Drop(fields, i + Width(field)));
      paths + Targets(Drop(fields, i)) == (if |field| < 4 then paths else paths + [field[3..]]) + more
  {
    var rest := Drop(fields, i);
    assert rest[0] == fields[i] && Drop(rest, Width(fields[i])) == Drop(fields, i + Width(fields[i]));
    var more := Targets(Drop(fields, i + Width(fields[i])));
    if |fields[i]| < 4 { assert [] + more == more; } else { AppendOne(paths, fields[i][3..], more); }
  }

  // The order is total, so there is one sorted arrangement.

  lemma {:induction false} LexTotal(a: Text, b: Text)
    ensures LexLeq(a, b) || LexLeq(b, a)
    ensures LexLeq(a, b) && LexLeq(b, a) ==> a == b
  {
    if a != [] && b != [] && a[0] == b[0] {
      LexTotal(a[1..], b[1..]);
      assert a == [a[0]] + a[1..] && b == [b[0]] + b[1..];
    }
  }

  lemma {:induction false} LexTransitive(a: Text, b: Text, c: Text)
    requires LexLeq(a, b) && LexLeq(b, c)
    ensures LexLeq(a, c)
  {
    if a != [] && a[0] == b[0] && b[0] == c[0] { LexTransitive(a[1..], b[1..], c[1..]); }
  }

  lemma {:induction false} InsertKeepsAll(path: Text, sorted: seq<Text>)
    ensures multiset(Insert(path, sorted)) == multiset(sorted) + multiset{path}
  {
    if sorted != [] && !LexLeq(path, sorted[0]) {
      InsertKeepsAll(path, sorted[1..]);
      assert sorted == [sorted[0]] + sorted[1..];
    }
  }

  lemma {:induction false} InsertIsSorted(path: Text, sorted: seq<Text>)
    requires IsSorted(sorted)
    ensures IsSorted(Insert(path, sorted))
  {
    if sorted == [] {
    } else if LexLeq(path, sorted[0]) {
      forall j | 0 <= j < |sorted| ensures LexLeq(path, sorted[j]) {
        if j > 0 { LexTransitive(path, sorted[0], sorted[j]); }
      }
    } else {
      var rest := Insert(path, sorted[1..]);
      InsertIsSorted(path, sorted[1..]);
      LexTotal(path, sorted[0]);
      InsertKeepsAll(path, sorted[1..]);
      forall x <- rest ensures LexLeq(sorted[0], x) {
        assert x in multiset(rest);
        assert x == path || x in sorted[1..];
      }
      PutInFront(sorted[0], rest);
    }
  }

  lemma PutInFront(first: Text, rest: seq<Text>)
    requires IsSorted(rest) && forall x <- rest :: LexLeq(first, x)
    ensures IsSorted([first] + rest)
  {
  }

  lemma {:induction false} SortIsSorted(paths: seq<Text>)
    ensures IsSorted(Sort(paths)) && multiset(Sort(paths)) == multiset(paths)
  {
    if paths != [] {
      SortIsSorted(paths[1..]);
      InsertIsSorted(paths[0], Sort(paths[1..]));
      InsertKeepsAll(paths[0], Sort(paths[1..]));
      assert paths == [paths[0]] + paths[1..];
    }
  }

  lemma SameHead(a: seq<Text>, b: seq<Text>)
    requires IsSorted(a) && IsSorted(b) && multiset(a) == multiset(b) && a != [] && b != []
    ensures a[0] == b[0]
  {
    assert a[0] in multiset(b) && b[0] in multiset(a);
    var i :| 0 <= i < |b| && b[i] == a[0];
    var j :| 0 <= j < |a| && a[j] == b[0];
    LexTotal(a[0], b[0]);
  }

  /** Two sorted arrangements of the same paths are equal, so `IsSorted` and the multiset pin the result down. */
  lemma {:induction false} SortedIsUnique(a: seq<Text>, b: seq<Text>)
    requires IsSorted(a) && IsSorted(b) && multiset(a) == multiset(b)
    ensures a == b
    decreases |a|
  {
    if a == [] || b == [] {
      assert |multiset(a)| == |a| && |multiset(b)| == |b|;
    } else {
      SameHead(a, b);
      var s, t := a[1..], b[1..];
      assert a == [a[0]] + s && b == [b[0]] + t;
      assert multiset(s) == multiset(a) - multiset{a[0]};
      assert multiset(t) == multiset(b) - multiset{a[0]};
      SortedIsUnique(s, t);
    }
  }

  // Printing and parsing.

  /** One status entry: two status letters, the target path, and the origin of a rename or copy. */
  datatype Entry = Entry(x: CodeUnit, y: CodeUnit, path: Text, origin: Option<Text>)

  predicate PlainPath(path: Text) {
    path != [] && NUL !in path
  }

  predicate WellFormed(e: Entry) {
    && e.x != NUL && e.y != NUL && PlainPath(e.path)
    && (e.origin.Some? <==> e.x == RENAMED || e.y == RENAMED || e.x == COPIED || e.y == COPIED)
    && (e.origin.Some? ==> PlainPath(e.origin.value))
  }

  function Head(e: Entry): Text {
    [e.x, e.y, SPACE] + e.path
  }

  function PrintEntry(e: Entry): Text {
    Head(e) + [NUL] + (if e.origin.Some? then e.origin.value + [NUL] else [])
  }

  function Print(entries: seq<Entry>): Text {
    if entries == [] then [] else PrintEntry(entries[0]) + Print(entries[1..])
  }

  function Paths(entries: seq<Entry>): seq<Text> {
    if entries == [] then [] else [entries[0].path] + Paths(entries[1..])
  }

  lemma {:induction false} SplitOffField(prefix: Text, field: Text, rest: Text)
    requires NUL !in field
    ensures SplitFrom(field + [NUL] + rest, prefix) == [prefix + field] + Split(rest)
    decreases |field|
  {
    var s := field + [NUL] + rest;
    if field == [] {
      assert s[1..] == rest && prefix + field == prefix;
    } else {
      assert s[1..] == field[1..] + [NUL] + rest;
      SplitOffField(prefix + [field[0]], field[1..], rest);
      assert prefix + [field[0]] + field[1..] == prefix + field;
    }
  }

  lemma OneField(field: Text, rest: Text)
    requires PlainPath(field)
    ensures NonEmpty(Split(field + [NUL] + rest)) == [field] + NonEmpty(Split(rest))
  {
    SplitOffField([], field, rest);
    assert [] + field == field;
    var fields := Split(field + [NUL] + rest);
    assert fields[1..] == Split(rest);
  }

  lemma PlainTarget(head: Text, more: seq<Text>)
    requires |head| >= 4 && !HasOrigin(head)
    ensures Targets([head] + more) == [head[3..]] + Targets(more)
  {
    var fields := [head] + more;
    assert Drop(fields, 1) == more;
  }

  lemma RenamedTarget(head: Text, origin: Text, more: seq<Text>)
    requires |head| >= 4 && HasOrigin(head)
    ensures Targets([head] + ([origin] + more)) == [head[3..]] + Targets(more)
  {
    var fields := [head] + ([origin] + more);
    assert Drop(fields, 2) == more;
  }

  lemma PlainFields(head: Text, tail: Text)
    requires PlainPath(head)
    ensures NonEmpty(Split(head + [NUL] + [] + tail)) == [head] + NonEmpty(Split(tail))
  {
    OneField(head, tail);
    assert head + [NUL] + [] + tail == head + [NUL] + tail;
  }

  lemma RenamedFields(head: Text, origin: Text, tail: Text)
    requires PlainPath(head) && PlainPath(origin)
    ensures NonEmpty(Split(head + [NUL] + (origin + [NUL]) + tail)) == [head] + ([origin] + NonEmpty(Split(tail)))
  {
    OneField(origin, tail);
    OneField(head, origin + [NUL] + tail);
    assert head + [NUL] + (origin + [NUL]) + tail == head + [NUL] + (origin + [NUL] + tail);
  }

  /** An entry prints to one target, whatever follows it. */
  lemma EntryTargets(e: Entry, tail: Text)
    requires WellFormed(e)
    ensures Targets(NonEmpty(Split(PrintEntry(e) + tail))) == [e.path] + Targets(NonEmpty(Split(tail)))
  {
    var head, more := Head(e), NonEmpty(Split(tail));
    assert PlainPath(head) && head[3..] == e.path;
    assert HasOrigin(head) == e.origin.Some?;
    if e.origin.Some? {
      RenamedFields(head, e.origin.value, tail);
      RenamedTarget(head, e.origin.value, more);
    } else {
      PlainFields(head, tail);
      PlainTarget(head, more);
    }
  }

  lemma {:induction false} PrintThenTargets(entries: seq<Entry>)
    requires forall e <- entries :: WellFormed(e)
    ensures Targets(NonEmpty(Split(Print(entries)))) == Paths(entries)
  {
    if entries == [] {
      assert NonEmpty([[]]) == NonEmpty([]);
    } else {
      PrintThenTargets(entries[1..]);
      EntryTargets(entries[0], Print(entries[1..]));
    }
  }

  /** Round trip: whatever a parse of printed entries may return under its contract is the sorted list of
      target paths, so no origin field is ever read as an entry and no entry is lost. */
  lemma RoundTrip(entries: seq<Entry>, paths: seq<Text>)
    requires forall e <- entries :: WellFormed(e)
    requires IsSorted(paths) && multiset(paths) == multiset(Targets(NonEmpty(Split(Print(entries)))))
    ensures paths == Sort(Paths(entries))
  {
    PrintThenTargets(entries);
    SortIsSorted(Paths(entries));
    SortedIsUnique(paths, Sort(Paths(entries)));
  }
}
