/**
 * The Expense collection of Backend/server.js and the three queries its
 * handlers run on it: `find(...).sort({date: -1})` (list by type),
 * `find(...).sort({createdAt: -1}).limit(5)` (recent) and the
 * `$match`/`$group` aggregation (analysis).
 */
module Queries {
  import opened Options
  import opened Strings

  /** A stored expense document (ExpenseSchema); `createdAt` in milliseconds. */
  datatype Expense = Expense(
    username: string,
    userEmail: string,
    amount: int,
    category: string,
    description: string,
    date: string,
    expenseType: string,
    createdAt: nat)

  /** One result of the `$group` stage: `{_id, totalAmount, count}`. */
  datatype Group = Group(id: string, totalAmount: int, count: nat)

  /**
   * The filter documents the handlers pass to MongoDB, and the per-category
   * selection that defines what `$group` computes. A missing `expenseType`
   * is sent as null and matches no stored expense (the schema requires it).
   */
  datatype Criterion =
    | OfUser(username: string)
    | OfUserAndType(username: string, expenseType: Option<string>)
    | InCategory(category: string)

  predicate Satisfies(e: Expense, q: Criterion) {
    match q
    case OfUser(u) => e.username == u
    case OfUserAndType(u, t) => e.username == u && t == Some(e.expenseType)
    case InCategory(c) => e.category == c
  }

  /** The documents of `es` that match `q`, in collection order. */
  function Where(es: seq<Expense>, q: Criterion): (r: seq<Expense>)
    ensures |r| <= |es|
    decreases |es|
  {
    if es == [] then []
    else
      var init := es[..|es| - 1];
      var last := es[|es| - 1];
      Where(init, q) + (if Satisfies(last, q) then [last] else [])
  }

  lemma WhereAppend(es: seq<Expense>, e: Expense, q: Criterion)
    ensures Where(es + [e], q) == Where(es, q) + (if Satisfies(e, q) then [e] else [])
  {
    assert (es + [e])[..|es + [e]| - 1] == es;
  }

  /** The filter keeps every matching document as often as it occurs, and nothing else. */
  lemma {:induction false} WhereMultiset(es: seq<Expense>, q: Criterion)
    ensures forall e :: multiset(Where(es, q))[e] == if Satisfies(e, q) then multiset(es)[e] else 0
    decreases |es|
  {
    if es != [] {
      var init := es[..|es| - 1];
      assert es == init + [es[|es| - 1]];
      WhereMultiset(init, q);
    }
  }

  lemma WhereMembers(es: seq<Expense>, q: Criterion)
    ensures forall e :: e in Where(es, q) <==> e in es && Satisfies(e, q)
  {
    WhereMultiset(es, q);
    forall e ensures e in Where(es, q) <==> e in es && Satisfies(e, q) {
      assert e in Where(es, q) <==> multiset(Where(es, q))[e] > 0;
      assert e in es <==> multiset(es)[e] > 0;
    }
  }

  /** The sum of the amounts (`$sum: "$amount"`). */
  function SumAmounts(es: seq<Expense>): int
    decreases |es|
  {
    if es == [] then 0 else SumAmounts(es[..|es| - 1]) + es[|es| - 1].amount
  }

  lemma SumAppend(es: seq<Expense>, e: Expense)
    ensures SumAmounts(es + [e]) == SumAmounts(es) + e.amount
  {
    assert (es + [e])[..|es + [e]| - 1] == es;
  }

  // ---------------------------------------------------------------------
  // sorting in descending order of one field

  /** The field of a descending sort: `{date: -1}` or `{createdAt: -1}`. */
  datatype SortField = Date | CreatedAt

  /** `a` may come before `b` when sorting descending on `f`. */
  predicate Precedes(a: Expense, b: Expense, f: SortField) {
    match f
    case Date => LexLe(b.date, a.date)
    case CreatedAt => b.createdAt <= a.createdAt
  }

  lemma PrecedesTotal(a: Expense, b: Expense, f: SortField)
    ensures Precedes(a, b, f) || Precedes(b, a, f)
  {
    if f == Date {
      LexLeTotal(a.date, b.date);
    }
  }

  lemma PrecedesTransitive(a: Expense, b: Expense, c: Expense, f: SortField)
    requires Precedes(a, b, f) && Precedes(b, c, f)
    ensures Precedes(a, c, f)
  {
    if f == Date {
      LexLeTransitive(c.date, b.date, a.date);
    }
  }

  predicate SortedDesc(s: seq<Expense>, f: SortField) {
    forall i, j :: 0 <= i < j < |s| ==> Precedes(s[i], s[j], f)
  }

  /** Inserts `x` into a sorted sequence, after the elements it does not precede. */
  function Insert(x: Expense, s: seq<Expense>, f: SortField): (r: seq<Expense>)
    requires SortedDesc(s, f)
    ensures SortedDesc(r, f)
    ensures multiset(r) == multiset(s) + multiset{x}
    decreases |s|
  {
    if s == [] then [x]
    else if Precedes(x, s[0], f) then
      PrecedesSorted(x, s, f);
      [x] + s
    else
      PrecedesTotal(x, s[0], f);
      var tail := Insert(x, s[1..], f);
      assert s == [s[0]] + s[1..];
      HeadPrecedesInsert(x, s, f, tail);
      [s[0]] + tail
  }

  /** What precedes the head of a sorted sequence precedes all of it. */
  lemma PrecedesSorted(x: Expense, s: seq<Expense>, f: SortField)
    requires SortedDesc(s, f) && s != [] && Precedes(x, s[0], f)
    ensures forall j :: 0 <= j < |s| ==> Precedes(x, s[j], f)
  {
    forall j | 0 < j < |s| ensures Precedes(x, s[j], f) {
      PrecedesTransitive(x, s[0], s[j], f);
    }
  }

  /** The head of a sorted sequence precedes what the insertion into its tail holds. */
  lemma HeadPrecedesInsert(x: Expense, s: seq<Expense>, f: SortField, tail: seq<Expense>)
    requires SortedDesc(s, f) && s != [] && Precedes(s[0], x, f)
    requires multiset(tail) == multiset(s[1..]) + multiset{x}
    ensures forall y :: y in tail ==> Precedes(s[0], y, f)
  {
    forall y | y in tail ensures Precedes(s[0], y, f) {
      assert y in multiset(s[1..]) + multiset{x};
      if y != x {
        var j :| 0 <= j < |s[1..]| && s[1..][j] == y;
        assert s[j + 1] == y;
      }
    }
  }

  /**
   * The documents of `s` in descending order of `f`. The order of ties is
   * left open, as MongoDB leaves it; this definition happens to put the
   * later of two tied documents first.
   */
  function SortDesc(s: seq<Expense>, f: SortField): (r: seq<Expense>)
    ensures SortedDesc(r, f)
    ensures multiset(r) == multiset(s)
    decreases |s|
  {
    if s == [] then []
    else
      assert s == s[..|s| - 1] + [s[|s| - 1]];
      Insert(s[|s| - 1], SortDesc(s[..|s| - 1], f), f)
  }

  // ---------------------------------------------------------------------
  // the three queries

  /**
   * List by type: exactly the user's expenses of that type (with their
   * multiplicities), newest `date` first by code-point order.
   */
  function ListByType(es: seq<Expense>, username: string, expenseType: string): (r: seq<Expense>)
    ensures forall e :: (multiset(r)[e]
                         == if e.username == username && e.expenseType == expenseType then multiset(es)[e] else 0)
    ensures SortedDesc(r, Date)
  {
    WhereMultiset(es, OfUserAndType(username, Some(expenseType)));
    SortDesc(Where(es, OfUserAndType(username, Some(expenseType))), Date)
  }

  /** `.limit(5)`. */
  const RecentLimit: nat := 5

  /** The first `n` elements, or all of them when there are fewer. */
  function Take(s: seq<Expense>, n: nat): (r: seq<Expense>)
    ensures |r| == if |s| <= n then |s| else n
    ensures r == s[..|r|]
  {
    if |s| <= n then s else s[..n]
  }

  /**
   * Recent: at most five of the user's expenses across all types, newest
   * `createdAt` first, and none of the user's expenses left out is newer
   * than one returned.
   */
  function Recent(es: seq<Expense>, username: string): (r: seq<Expense>)
    ensures |r| == if |Where(es, OfUser(username)) | < RecentLimit then |Where(es, OfUser(username))| else RecentLimit
    ensures forall e :: e in r ==> e in es && e.username == username
    ensures multiset(r) <= multiset(Where(es, OfUser(username)))
    ensures SortedDesc(r, CreatedAt)
    ensures forall x, y :: (x in r && y in multiset(Where(es, OfUser(username))) - multiset(r)
                            ==> y.createdAt <= x.createdAt)
  {
    var owned := Where(es, OfUser(username));
    var sorted := SortDesc(owned, CreatedAt);
    TakeSorted(sorted, owned, RecentLimit);
    OnlyOwned(es, Take(sorted, RecentLimit), username);
    Take(sorted, RecentLimit)
  }

  /** What `.limit(n)` keeps of a descending sort of `owned`. */
  lemma TakeSorted(sorted: seq<Expense>, owned: seq<Expense>, n: nat)
    requires SortedDesc(sorted, CreatedAt) && multiset(sorted) == multiset(owned)
    ensures |Take(sorted, n)| == if |owned| < n then |owned| else n
    ensures SortedDesc(Take(sorted, n), CreatedAt)
    ensures multiset(Take(sorted, n)) <= multiset(owned)
    ensures forall x, y :: (x in Take(sorted, n) && y in multiset(owned) - multiset(Take(sorted, n))
                            ==> y.createdAt <= x.createdAt)
  {
    assert |sorted| == |multiset(sorted)| == |owned|;
    var r := Take(sorted, n);
    if |sorted| > n {
      assert sorted == r + sorted[n..];
      assert multiset(sorted) == multiset(r) + multiset(sorted[n..]);
      forall x, y | x in r && y in multiset(owned) - multiset(r)
        ensures y.createdAt <= x.createdAt
      {
        var i :| 0 <= i < |r| && r[i] == x;
        assert y in sorted[n..];
        var j :| n <= j < |sorted| && sorted[j] == y;
        assert Precedes(sorted[i], sorted[j], CreatedAt);
      }
    }
  }

  lemma OnlyOwned(es: seq<Expense>, r: seq<Expense>, username: string)
    requires multiset(r) <= multiset(Where(es, OfUser(username)))
    ensures forall e :: e in r ==> e in es && e.username == username
  {
    WhereMembers(es, OfUser(username));
    forall e | e in r ensures e in es && e.username == username {
      assert e in multiset(Where(es, OfUser(username)));
    }
  }

  // ---------------------------------------------------------------------
  // grouping

  /** The `_id`s of the groups, in order (`data.map(item => item._id)` on the page). */
  function Ids(gs: seq<Group>): seq<string> {
    seq(|gs|, i requires 0 <= i < |gs| => gs[i].id)
  }

  predicate DistinctIds(gs: seq<Group>) {
    forall i, j :: 0 <= i < j < |gs| ==> gs[i].id != gs[j].id
  }

  /** The position of the group with `_id == c`, or `|gs|` when there is none. */
  function IndexOf(gs: seq<Group>, c: string): (k: nat)
    ensures k <= |gs|
    ensures k < |gs| ==> gs[k].id == c
    ensures forall i :: 0 <= i < k ==> gs[i].id != c
    decreases |gs|
  {
    if gs == [] then 0
    else if gs[0].id == c then 0
    else 1 + IndexOf(gs[1..], c)
  }

  /** What `$group` does with one more document: add to its category's group or open one. */
  function AddTo(gs: seq<Group>, e: Expense): seq<Group> {
    var k := IndexOf(gs, e.category);
    if k < |gs| then gs[k := Group(e.category, gs[k].totalAmount + e.amount, gs[k].count + 1)]
    else gs + [Group(e.category, e.amount, 1)]
  }

  /** The sum of the amounts of the documents of `m` in category `c`. */
  function CategoryTotal(m: seq<Expense>, c: string): int
    decreases |m|
  {
    if m == [] then 0
    else CategoryTotal(m[..|m| - 1], c) + (if m[|m| - 1].category == c then m[|m| - 1].amount else 0)
  }

  /** The number of documents of `m` in category `c`. */
  function CategoryCount(m: seq<Expense>, c: string): nat
    decreases |m|
  {
    if m == [] then 0
    else CategoryCount(m[..|m| - 1], c) + (if m[|m| - 1].category == c then 1 else 0)
  }

  lemma CategoryAppend(m: seq<Expense>, e: Expense, c: string)
    ensures CategoryTotal(m + [e], c) == CategoryTotal(m, c) + (if e.category == c then e.amount else 0)
    ensures CategoryCount(m + [e], c) == CategoryCount(m, c) + (if e.category == c then 1 else 0)
  {
    assert (m + [e])[..|m + [e]| - 1] == m;
  }

  /** A category nobody carries sums to zero. */
  lemma {:induction false} CategoryTotalOfNone(m: seq<Expense>, c: string)
    requires CategoryCount(m, c) == 0
    ensures CategoryTotal(m, c) == 0
    decreases |m|
  {
    if m != [] {
      CategoryTotalOfNone(m[..|m| - 1], c);
    }
  }

  /** A category is counted exactly when some document carries it. */
  lemma {:induction false} CategoryCountPositive(m: seq<Expense>, c: string)
    ensures CategoryCount(m, c) > 0 <==> exists e :: e in m && e.category == c
    decreases |m|
  {
    if m != [] {
      var init := m[..|m| - 1];
      CategoryCountPositive(init, c);
      assert m == init + [m[|m| - 1]];
      if exists e :: e in m && e.category == c {
        var e :| e in m && e.category == c;
        if e != m[|m| - 1] {
          assert e in init;
        }
      }
    }
  }

  /** The category totals, the definition of `$sum` per `_id`, agree with the selections. */
  lemma {:induction false} CategoryIsSelection(m: seq<Expense>, c: string)
    ensures CategoryTotal(m, c) == SumAmounts(Where(m, InCategory(c)))
    ensures CategoryCount(m, c) == |Where(m, InCategory(c))|
    decreases |m|
  {
    if m != [] {
      var init := m[..|m| - 1];
      var e := m[|m| - 1];
      assert m == init + [e];
      CategoryIsSelection(init, c);
      assert CategoryTotal(m, c) == CategoryTotal(init, c) + (if e.category == c then e.amount else 0);
      WhereAppend(init, e, InCategory(c));
      if e.category == c {
        SumAppend(Where(init, InCategory(c)), e);
      } else {
        assert Where(m, InCategory(c)) == Where(init, InCategory(c));
      }
    }
  }

  /** The groups of `m` per category, each summing the amounts and counting the documents. */
  ghost predicate GroupsOf(gs: seq<Group>, m: seq<Expense>) {
    && DistinctIds(gs)
    && (forall i :: 0 <= i < |gs| ==>
          gs[i].totalAmount == CategoryTotal(m, gs[i].id) && gs[i].count == CategoryCount(m, gs[i].id))
    && (forall c :: c in Ids(gs) <==> CategoryCount(m, c) > 0)
  }

  /** `$group: {_id: "$category", totalAmount: {$sum: "$amount"}, count: {$sum: 1}}`. */
  function Accumulate(m: seq<Expense>): (gs: seq<Group>)
    ensures GroupsOf(gs, m)
    decreases |m|
  {
    if m == [] then []
    else
      var init := m[..|m| - 1];
      var e := m[|m| - 1];
      assert m == init + [e];
      var prev := Accumulate(init);
      AddToGroups(prev, init, e);
      AddTo(prev, e)
  }

  lemma AddToGroups(gs: seq<Group>, m: seq<Expense>, e: Expense)
    requires GroupsOf(gs, m)
    ensures GroupsOf(AddTo(gs, e), m + [e])
  {
    var k := IndexOf(gs, e.category);
    var r := AddTo(gs, e);
    forall i | 0 <= i < |r|
      ensures r[i].totalAmount == CategoryTotal(m + [e], r[i].id)
      ensures r[i].count == CategoryCount(m + [e], r[i].id)
    {
      CategoryAppend(m, e, r[i].id);
      if i == |gs| {
        CategoryTotalOfNone(m, e.category);
      }
    }
    if k < |gs| {
      assert r == gs[k := Group(e.category, gs[k].totalAmount + e.amount, gs[k].count + 1)];
      assert Ids(r) == Ids(gs);
    } else {
      assert r == gs + [Group(e.category, e.amount, 1)];
      assert e.category !in Ids(gs);
      assert Ids(r) == Ids(gs) + [e.category];
    }
    forall c
      ensures c in Ids(r) <==> CategoryCount(m + [e], c) > 0
    {
      CategoryAppend(m, e, c);
      if c == e.category {
        assert Ids(r)[k] == c;
      }
    }
  }

  /**
   * Analysis: one group per category of the user's expenses of the given
   * type, each category exactly once, with the sum of those expenses'
   * amounts and their number.
   */
  function Aggregate(es: seq<Expense>, username: string, expenseType: Option<string>): (gs: seq<Group>)
    ensures DistinctIds(gs)
    ensures forall i :: 0 <= i < |gs| ==>
      var matching := Where(Where(es, OfUserAndType(username, expenseType)), InCategory(gs[i].id));
      gs[i].totalAmount == SumAmounts(matching) && gs[i].count == |matching|
    ensures forall c :: c in Ids(gs) <==>
      exists e :: e in es && e.username == username && Some(e.expenseType) == expenseType && e.category == c
  {
    var m := Where(es, OfUserAndType(username, expenseType));
    var gs := Accumulate(m);
    GroupsAreSelections(es, m, gs, username, expenseType);
    gs
  }

  lemma GroupsAreSelections(es: seq<Expense>, m: seq<Expense>, gs: seq<Group>,
                            username: string, expenseType: Option<string>)
    requires m == Where(es, OfUserAndType(username, expenseType)) && GroupsOf(gs, m)
    ensures forall i :: 0 <= i < |gs| ==>
      gs[i].totalAmount == SumAmounts(Where(m, InCategory(gs[i].id)))
      && gs[i].count == |Where(m, InCategory(gs[i].id))|
    ensures forall c :: c in Ids(gs) <==>
      exists e :: e in es && e.username == username && Some(e.expenseType) == expenseType && e.category == c
  {
    forall i | 0 <= i < |gs|
      ensures gs[i].totalAmount == SumAmounts(Where(m, InCategory(gs[i].id)))
      ensures gs[i].count == |Where(m, InCategory(gs[i].id))|
    {
      CategoryIsSelection(m, gs[i].id);
    }
    forall c ensures c in Ids(gs) <==>
      exists e :: e in es && e.username == username && Some(e.expenseType) == expenseType && e.category == c
    {
      CategoryCountPositive(m, c);
      WhereMembers(es, OfUserAndType(username, expenseType));
    }
  }
}
