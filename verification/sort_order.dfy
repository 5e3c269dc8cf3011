/** The sort step of a sales query: the value a record sorts by for a field path, the
    store's order on such values, the direction chosen by `order`, and a sort that returns
    the records as a permutation ordered by that key. */
module SortOrder {
  import opened Optional
  import opened SaleModel
  import opened Paging

  /** The value a record sorts by. A path that names no scalar field gives every record the
      same `Missing` key; across kinds, missing sorts first, then numbers, strings, dates. */
  datatype SortValue = Missing | Num(n: int) | Str(s: string) | When(t: Timestamp)

  function Rank(v: SortValue): nat {
    match v
    case Missing => 0
    case Num(_) => 1
    case Str(_) => 2
    case When(_) => 3
  }

  /** Lexicographic order on strings by character code. */
  predicate LexLe(a: string, b: string)
    decreases |a|
  {
    if |a| == 0 then true
    else if |b| == 0 then false
    else if a[0] != b[0] then a[0] < b[0]
    else LexLe(a[1..], b[1..])
  }

  lemma {:induction false} LexLeTotal(a: string, b: string)
    ensures LexLe(a, b) || LexLe(b, a)
    decreases |a|
  {
    if |a| > 0 && |b| > 0 && a[0] == b[0] {
      LexLeTotal(a[1..], b[1..]);
    }
  }

  lemma {:induction false} LexLeTransitive(a: string, b: string, c: string)
    requires LexLe(a, b) && LexLe(b, c)
    ensures LexLe(a, c)
    decreases |a|
  {
    if |a| > 0 && |b| > 0 && |c| > 0 && a[0] == b[0] && b[0] == c[0] {
      LexLeTransitive(a[1..], b[1..], c[1..]);
    }
  }

  /** The store's ascending order on sort values. */
  predicate ValueLe(a: SortValue, b: SortValue) {
    if Rank(a) != Rank(b) then Rank(a) < Rank(b)
    else match (a, b)
      case (Num(x), Num(y)) => x <= y
      case (Str(x), Str(y)) => LexLe(x, y)
      case (When(x), When(y)) => x <= y
      case _ => true
  }

  /** Any two sort values are comparable. */
  lemma ValueLeTotal(a: SortValue, b: SortValue)
    ensures ValueLe(a, b) || ValueLe(b, a)
  {
    if a.Str? && b.Str? {
      LexLeTotal(a.s, b.s);
    }
  }

  lemma ValueLeTransitive(a: SortValue, b: SortValue, c: SortValue)
    requires ValueLe(a, b) && ValueLe(b, c)
    ensures ValueLe(a, c)
  {
    if a.Str? && b.Str? && c.Str? {
      LexLeTransitive(a.s, b.s, c.s);
    }
  }

  datatype Direction = Ascending | Descending

  /** The sort direction of the `order` parameter: only the exact string "asc" sorts
      ascending; anything else, the default "desc" included, sorts descending. */
  function DirectionOf(order: Option<string>): (dir: Direction)
    ensures dir == Ascending <==> order == Some("asc")
  {
    if order.GetOr("desc") == "asc" then Ascending else Descending
  }

  /** A record keyed `a` may come before one keyed `b` in direction `dir`. */
  predicate Precedes(dir: Direction, a: SortValue, b: SortValue) {
    if dir == Ascending then ValueLe(a, b) else ValueLe(b, a)
  }

  lemma PrecedesTotal(dir: Direction, a: SortValue, b: SortValue)
    ensures Precedes(dir, a, b) || Precedes(dir, b, a)
  {
    ValueLeTotal(a, b);
  }

  lemma PrecedesTransitive(dir: Direction, a: SortValue, b: SortValue, c: SortValue)
    requires Precedes(dir, a, b) && Precedes(dir, b, c)
    ensures Precedes(dir, a, c)
  {
    if dir == Ascending {
      ValueLeTransitive(a, b, c);
    } else {
      ValueLeTransitive(c, b, a);
    }
  }

  /** Every element precedes every later one by its key. */
  ghost predicate OrderedOn<T>(xs: seq<T>, key: T -> SortValue, dir: Direction) {
    forall i, j :: 0 <= i < j < |xs| ==> Precedes(dir, key(xs[i]), key(xs[j]))
  }

  /** Each element precedes its successor by its key. */
  ghost predicate ChainedOn<T>(xs: seq<T>, key: T -> SortValue, dir: Direction) {
    forall i :: 0 <= i < |xs| - 1 ==> Precedes(dir, key(xs[i]), key(xs[i + 1]))
  }

  /** The elements after the first of a chained sequence are chained. */
  lemma ChainedTail<T>(xs: seq<T>, key: T -> SortValue, dir: Direction)
    requires |xs| > 0 && ChainedOn(xs, key, dir)
    ensures ChainedOn(xs[1..], key, dir)
  {
    var tail := xs[1..];
    forall i | 0 <= i < |tail| - 1 ensures Precedes(dir, key(tail[i]), key(tail[i + 1])) {
      assert tail[i] == xs[i + 1] && tail[i + 1] == xs[i + 2];
    }
  }

  /** By transitivity, a chain of neighbours is ordered throughout. */
  lemma {:induction false} ChainedIsOrdered<T>(xs: seq<T>, key: T -> SortValue, dir: Direction)
    requires ChainedOn(xs, key, dir)
    ensures OrderedOn(xs, key, dir)
    decreases |xs|
  {
    if |xs| >= 2 {
      var tail := xs[1..];
      ChainedTail(xs, key, dir);
      ChainedIsOrdered(tail, key, dir);
      forall i, j | 0 <= i < j < |xs| ensures Precedes(dir, key(xs[i]), key(xs[j])) {
        if i == 0 && j > 1 {
          assert Precedes(dir, key(tail[0]), key(tail[j - 1]));
          PrecedesTransitive(dir, key(xs[0]), key(xs[1]), key(xs[j]));
        } else if i > 0 {
          assert tail[i - 1] == xs[i] && tail[j - 1] == xs[j];
        }
      }
    }
  }

  /** `x` placed into `xs` before the first element it may precede. */
  function Insert<T>(x: T, xs: seq<T>, key: T -> SortValue, dir: Direction): (r: seq<T>)
    ensures multiset(r) == multiset(xs) + multiset{x}
    ensures |r| == |xs| + 1
    ensures |xs| > 0 ==> r[0] == x || r[0] == xs[0]
    ensures |xs| == 0 ==> r == [x]
  {
    if |xs| == 0 then [x]
    else if Precedes(dir, key(x), key(xs[0])) then [x] + xs
    else
      assert xs == [xs[0]] + xs[1..];
      [xs[0]] + Insert(x, xs[1..], key, dir)
  }

  /** Inserting into a chained sequence keeps it chained. */
  lemma {:induction false} InsertChained<T>(x: T, xs: seq<T>, key: T -> SortValue, dir: Direction)
    requires ChainedOn(xs, key, dir)
    ensures ChainedOn(Insert(x, xs, key, dir), key, dir)
    decreases |xs|
  {
    if |xs| > 0 && !Precedes(dir, key(x), key(xs[0])) {
      var tail := xs[1..];
      ChainedTail(xs, key, dir);
      InsertChained(x, tail, key, dir);
      PrecedesTotal(dir, key(x), key(xs[0]));
      var rest := Insert(x, tail, key, dir);
      var r := Insert(x, xs, key, dir);
      assert r == [xs[0]] + rest;
      forall i | 0 <= i < |r| - 1 ensures Precedes(dir, key(r[i]), key(r[i + 1])) {
        if i > 0 {
          assert r[i] == rest[i - 1] && r[i + 1] == rest[i];
        }
      }
    }
  }

  /** Insertion sort of `xs` by `key` in direction `dir`. Elements with equal keys keep
      their input order. */
  function SortOn<T>(xs: seq<T>, key: T -> SortValue, dir: Direction): (r: seq<T>)
    ensures multiset(r) == multiset(xs)
    ensures |r| == |xs|
    ensures ChainedOn(r, key, dir)
  {
    if |xs| == 0 then []
    else
      assert xs == [xs[0]] + xs[1..];
      var sorted := SortOn(xs[1..], key, dir);
      InsertChained(xs[0], sorted, key, dir);
      Insert(xs[0], sorted, key, dir)
  }

  /** A window of an ordered sequence is ordered and holds elements of that sequence. */
  lemma OrderedWindow<T>(xs: seq<T>, skip: nat, take: nat, key: T -> SortValue, dir: Direction)
    requires OrderedOn(xs, key, dir)
    ensures forall k :: 0 <= k < |Window(xs, skip, take)| ==> Window(xs, skip, take)[k] in xs
    ensures OrderedOn(Window(xs, skip, take), key, dir)
  {
    var w := Window(xs, skip, take);
    forall i, j | 0 <= i < j < |w| ensures Precedes(dir, key(w[i]), key(w[j])) {
      assert w[i] == xs[skip + i] && w[j] == xs[skip + j];
    }
  }

  // ---------------------------------------------------------------------------
  // sorting records by a field path
  // ---------------------------------------------------------------------------

  /** The value record `s` sorts by under the path name `sortBy`. */
  function SortKey(sortBy: string, s: Sale): SortValue {
    match ParsePath(sortBy)
    case None => Missing
    case Some(p) =>
      match Get(p, s)
      case Text(x) => Str(x)
      case Number(n) => Num(n)
      case Date(t) => When(t)
      case TextList(_) => Missing
  }

  /** The sort key of the path name `sortBy`, as a function on records. */
  function KeyOf(sortBy: string): Sale -> SortValue {
    s => SortKey(sortBy, s)
  }

  /** Every record precedes every later one: the order `.sort({[sortBy]: ±1})` promises. */
  ghost predicate Ordered(xs: seq<Sale>, sortBy: string, dir: Direction) {
    OrderedOn(xs, KeyOf(sortBy), dir)
  }

  /** The records of `xs` rearranged into order by `sortBy` in direction `dir`. */
  function SortBy(xs: seq<Sale>, sortBy: string, dir: Direction): (r: seq<Sale>)
    ensures multiset(r) == multiset(xs)
    ensures |r| == |xs|
  {
    SortOn(xs, KeyOf(sortBy), dir)
  }

  /** The sort returns a permutation of its input, ordered by the key throughout. */
  lemma SortByOrdered(xs: seq<Sale>, sortBy: string, dir: Direction)
    ensures multiset(SortBy(xs, sortBy, dir)) == multiset(xs)
    ensures Ordered(SortBy(xs, sortBy, dir), sortBy, dir)
  {
    ChainedIsOrdered(SortBy(xs, sortBy, dir), KeyOf(sortBy), dir);
  }
}
