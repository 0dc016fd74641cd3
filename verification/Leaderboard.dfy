/** The public ranking: aggregated from the status rows, equal to what the submissions say,
    strictly ordered, and cut into pages with global ranks. */
module Leaderboard {
  import opened JudgeStatus
  import opened Options
  import opened Tables
  import Statistics
  import Lifecycle
  import TextOrder

  /** One row of the ranking. */
  datatype Standing = Standing(user: nat, acCount: nat, submitCount: nat, firstAcAt: Option<string>, createdAt: string)

  predicate Visible(db: Db, problem: nat) {
    problem in db.problems && db.problems[problem].visible
  }

  /** `MIN` over a column: NULL of no rows, otherwise the least value. */
  ghost predicate IsEarliest(times: set<string>, first: Option<string>) {
    match first
    case None => times == {}
    case Some(t) => t in times && forall x :: x in times ==> TextOrder.AtMost(t, x)
  }

  // --------------------------------------------------------- aggregated from status rows

  ghost function RowsOf(db: Db, user: nat): set<(nat, nat)> {
    set k | k in db.statuses && k.0 == user && Visible(db, k.1)
  }

  ghost function AcRowsOf(db: Db, user: nat): set<(nat, nat)> {
    set k | k in RowsOf(db, user) && k in db.statuses && db.statuses[k].accepted
  }

  ghost function AcTimesOf(db: Db, user: nat): set<string> {
    set k | k in AcRowsOf(db, user) && k in db.statuses && db.statuses[k].firstAcAt.Some?
      :: db.statuses[k].firstAcAt.value
  }

  ghost function Pick(keys: set<(nat, nat)>): (key: (nat, nat))
    requires keys != {}
    ensures key in keys
  {
    var key :| key in keys; key
  }

  /** `SUM(submit_count)`. */
  ghost function Sum(db: Db, keys: set<(nat, nat)>): nat
    requires keys <= db.statuses.Keys
  {
    if keys == {} then 0
    else db.statuses[Pick(keys)].submitCount + Sum(db, keys - {Pick(keys)})
  }

  ghost predicate Listed(db: Db, user: nat) {
    RowsOf(db, user) != {} && Sum(db, RowsOf(db, user)) > 0
  }

  ghost predicate IsStanding(db: Db, s: Standing) {
    && s.user in db.users && Listed(db, s.user)
    && s.createdAt == db.users[s.user].createdAt
    && s.acCount == |AcRowsOf(db, s.user)|
    && s.submitCount == Sum(db, RowsOf(db, s.user))
    && IsEarliest(AcTimesOf(db, s.user), s.firstAcAt)
  }

  // ------------------------------------------------------------ read off the submissions

  ghost function SubmissionsOf(db: Db, user: nat): set<nat> {
    set id | && id in db.submissions && db.submissions[id].entry.user == user
             && db.submissions[id].entry.problem in db.problems
             && db.problems[db.submissions[id].entry.problem].visible
  }

  ghost function AcceptedOf(db: Db, user: nat): set<nat> {
    set id | id in SubmissionsOf(db, user) && id in db.submissions && db.submissions[id].status == AC
  }

  ghost function SolvedBy(db: Db, user: nat): set<nat> {
    set id | id in AcceptedOf(db, user) && id in db.submissions :: db.submissions[id].entry.problem
  }

  ghost function AcceptedTimes(db: Db, user: nat): set<string> {
    set id | id in AcceptedOf(db, user) && id in db.submissions :: db.submissions[id].entry.submittedAt
  }

  /** The standing of a user as the submissions on visible problems define it. */
  ghost predicate IsDirectStanding(db: Db, s: Standing) {
    && s.user in db.users && SubmissionsOf(db, s.user) != {}
    && s.createdAt == db.users[s.user].createdAt
    && s.acCount == |SolvedBy(db, s.user)|
    && s.submitCount == |SubmissionsOf(db, s.user)|
    && IsEarliest(AcceptedTimes(db, s.user), s.firstAcAt)
  }

  // ------------------------------------------------------------------------- agreement

  /** The submissions behind some status rows. */
  ghost function Behind(db: Db, keys: set<(nat, nat)>): set<nat> {
    set id | id in db.submissions && (db.submissions[id].entry.user, db.submissions[id].entry.problem) in keys
  }

  lemma {:induction false} SumCountsSubmissions(db: Db, keys: set<(nat, nat)>)
    requires Statistics.Consistent(db) && keys <= db.statuses.Keys
    ensures Sum(db, keys) == |Behind(db, keys)|
    decreases keys
  {
    if keys == {} {
      assert Behind(db, keys) == {};
    } else {
      var key := Pick(keys);
      SumCountsSubmissions(db, keys - {key});
      assert Statistics.RowConsistent(db, key.0, key.1);
      var here := IdsOf(db, key.0, key.1);
      assert Behind(db, keys) == Behind(db, keys - {key}) + here;
      assert Behind(db, keys - {key}) !! here;
    }
  }

  lemma RowsCoverSubmissions(db: Db, user: nat)
    requires Statistics.Consistent(db)
    ensures Behind(db, RowsOf(db, user)) == SubmissionsOf(db, user)
  {
    forall id | id in SubmissionsOf(db, user)
      ensures id in Behind(db, RowsOf(db, user))
    {
      var problem := db.submissions[id].entry.problem;
      assert Statistics.RowConsistent(db, user, problem);
      assert id in IdsOf(db, user, problem);
    }
  }

  /** An accepted row stands for an accepted submission, and its time is the earliest of them. */
  lemma AcRowMeaning(db: Db, user: nat, problem: nat)
    requires Statistics.Consistent(db)
    ensures (user, problem) in AcRowsOf(db, user) <==> problem in SolvedBy(db, user)
    ensures (user, problem) in AcRowsOf(db, user) ==>
              var first := db.statuses[(user, problem)].firstAcAt;
              first.Some? && IsFirstAc(db, user, problem, first)
  {
    assert Statistics.RowConsistent(db, user, problem);
    if (user, problem) in AcRowsOf(db, user) {
      var first := db.statuses[(user, problem)].firstAcAt;
      var id :| IsAcOf(db, id, user, problem) && db.submissions[id].entry.submittedAt == first.value;
      assert id in AcceptedOf(db, user);
    }
    if problem in SolvedBy(db, user) {
      var id :| id in AcceptedOf(db, user) && db.submissions[id].entry.problem == problem;
      assert IsAcOf(db, id, user, problem);
      assert id in IdsOf(db, user, problem);
    }
  }

  lemma SolvedCounted(db: Db, user: nat)
    requires Statistics.Consistent(db)
    ensures |AcRowsOf(db, user)| == |SolvedBy(db, user)|
  {
    forall problem: nat
      ensures (user, problem) in AcRowsOf(db, user) <==> problem in SolvedBy(db, user)
    {
      AcRowMeaning(db, user, problem);
    }
    PairsCounted(user, SolvedBy(db, user), AcRowsOf(db, user));
  }

  lemma {:induction false} PairsCounted(user: nat, problems: set<nat>, rows: set<(nat, nat)>)
    requires forall problem: nat :: (user, problem) in rows <==> problem in problems
    requires forall k :: k in rows ==> k.0 == user
    ensures |rows| == |problems|
    decreases problems
  {
    if problems == {} {
      assert forall k :: k in rows ==> k == (user, k.1) && k.1 in problems;
      assert rows == {};
    } else {
      var p :| p in problems;
      PairsCounted(user, problems - {p}, rows - {(user, p)});
    }
  }

  /** Dropping times that are not the earliest of their group does not move the minimum. */
  lemma EarliestOfEarliest(some: set<string>, all: set<string>, first: Option<string>)
    requires some <= all
    requires forall t :: t in all ==> exists x :: x in some && TextOrder.AtMost(x, t)
    ensures IsEarliest(some, first) <==> IsEarliest(all, first)
  {
    if first.Some? {
      var t := first.value;
      if IsEarliest(some, first) {
        forall y | y in all
          ensures TextOrder.AtMost(t, y)
        {
          var x :| x in some && TextOrder.AtMost(x, y);
          TextOrder.AtMostTransitive(t, x, y);
        }
      }
      if IsEarliest(all, first) {
        var x :| x in some && TextOrder.AtMost(x, t);
        TextOrder.Total(x, t);
        assert x == t;
      }
    } else {
      assert all != {} ==> exists t :: t in all;
    }
  }

  lemma TimesAgree(db: Db, user: nat, first: Option<string>)
    requires Statistics.Consistent(db)
    ensures IsEarliest(AcTimesOf(db, user), first) <==> IsEarliest(AcceptedTimes(db, user), first)
  {
    var some, all := AcTimesOf(db, user), AcceptedTimes(db, user);
    forall t | t in some
      ensures t in all
    {
      var k :| k in AcRowsOf(db, user) && k in db.statuses && db.statuses[k].firstAcAt == Some(t);
      assert k == (user, k.1);
      AcRowMeaning(db, user, k.1);
      var id :| IsAcOf(db, id, user, k.1) && db.submissions[id].entry.submittedAt == t;
      assert id in AcceptedOf(db, user);
    }
    forall t | t in all
      ensures exists x :: x in some && TextOrder.AtMost(x, t)
    {
      var id :| id in AcceptedOf(db, user) && db.submissions[id].entry.submittedAt == t;
      var problem := db.submissions[id].entry.problem;
      assert problem in SolvedBy(db, user);
      AcRowMeaning(db, user, problem);
      assert IsAcOf(db, id, user, problem);
      assert db.statuses[(user, problem)].firstAcAt.value in some;
    }
    EarliestOfEarliest(some, all, first);
  }

  /** The aggregate over the status rows is the aggregate over the submissions. */
  lemma StandingsAgree(db: Db, s: Standing)
    requires Statistics.Consistent(db)
    ensures IsStanding(db, s) <==> IsDirectStanding(db, s)
  {
    SumCountsSubmissions(db, RowsOf(db, s.user));
    RowsCoverSubmissions(db, s.user);
    SolvedCounted(db, s.user);
    TimesAgree(db, s.user, s.firstAcAt);
    if RowsOf(db, s.user) == {} {
      assert Sum(db, RowsOf(db, s.user)) == 0;
      assert |SubmissionsOf(db, s.user)| == 0;
    }
    assert SubmissionsOf(db, s.user) != {} <==> |SubmissionsOf(db, s.user)| > 0;
  }

  // ----------------------------------------------------------------------------- order

  /** `ORDER BY ac_count DESC, submit_count, first_ac_at IS NULL, first_ac_at, created_at, id`. */
  predicate Ahead(a: Standing, b: Standing) {
    if a.acCount != b.acCount then a.acCount > b.acCount
    else if a.submitCount != b.submitCount then a.submitCount < b.submitCount
    else if a.firstAcAt.None? != b.firstAcAt.None? then b.firstAcAt.None?
    else if a.firstAcAt != b.firstAcAt then EarlierAc(a.firstAcAt, b.firstAcAt)
    else if a.createdAt != b.createdAt then TextOrder.Less(a.createdAt, b.createdAt)
    else a.user < b.user
  }

  predicate EarlierAc(a: Option<string>, b: Option<string>) {
    a.Some? && b.Some? && TextOrder.Less(a.value, b.value)
  }

  lemma AheadIrreflexive(a: Standing)
    ensures !Ahead(a, a)
  {
  }

  lemma AheadTotal(a: Standing, b: Standing)
    ensures a == b || Ahead(a, b) || Ahead(b, a)
  {
    TextOrder.Total(a.createdAt, b.createdAt);
    if a.firstAcAt.Some? && b.firstAcAt.Some? {
      TextOrder.Total(a.firstAcAt.value, b.firstAcAt.value);
    }
  }

  lemma AheadTransitive(a: Standing, b: Standing, c: Standing)
    requires Ahead(a, b) && Ahead(b, c)
    ensures Ahead(a, c)
  {
    TextOrder.Irreflexive(a.createdAt);
    if TextOrder.Less(a.createdAt, b.createdAt) && TextOrder.Less(b.createdAt, c.createdAt) {
      TextOrder.Transitive(a.createdAt, b.createdAt, c.createdAt);
    }
    if EarlierAc(a.firstAcAt, b.firstAcAt) && EarlierAc(b.firstAcAt, c.firstAcAt) {
      TextOrder.Transitive(a.firstAcAt.value, b.firstAcAt.value, c.firstAcAt.value);
      TextOrder.Irreflexive(a.firstAcAt.value);
    }
  }

  lemma AheadAsymmetric(a: Standing, b: Standing)
    ensures !(Ahead(a, b) && Ahead(b, a))
  {
    if Ahead(a, b) && Ahead(b, a) {
      AheadTransitive(a, b, a);
      AheadIrreflexive(a);
    }
  }

  // ----------------------------------------------------------------------- the ranking

  ghost predicate Ordered(board: seq<Standing>) {
    forall i, j :: 0 <= i < j < |board| ==> Ahead(board[i], board[j])
  }

  /** The rows of the query in the order it asks for. */
  ghost predicate IsBoard(db: Db, board: seq<Standing>) {
    Ordered(board) && forall s :: s in board <==> IsStanding(db, s)
  }

  lemma {:induction false} OrderedUnique(a: seq<Standing>, b: seq<Standing>)
    requires Ordered(a) && Ordered(b)
    requires forall s :: s in a <==> s in b
    ensures a == b
  {
    if a == [] {
      assert forall k :: 0 <= k < |b| ==> b[k] in b;
    } else {
      assert a[0] in b;
      FirstIsLeast(a, b);
      FirstIsLeast(b, a);
      AheadAsymmetric(a[0], b[0]);
      assert a[0] == b[0];
      TailMembers(a);
      TailMembers(b);
      OrderedUnique(a[1..], b[1..]);
      assert a == [a[0]] + a[1..] && b == [b[0]] + b[1..];
    }
  }

  lemma FirstIsLeast(a: seq<Standing>, b: seq<Standing>)
    requires a != [] && b != [] && Ordered(a) && forall s :: s in b ==> s in a
    ensures a[0] == b[0] || Ahead(a[0], b[0])
  {
    assert b[0] in a;
  }

  lemma TailMembers(a: seq<Standing>)
    requires a != [] && Ordered(a)
    ensures Ordered(a[1..])
    ensures forall s :: s in a[1..] <==> s in a && s != a[0]
  {
    AheadIrreflexive(a[0]);
    assert forall k :: 0 <= k < |a| - 1 ==> a[1..][k] == a[k + 1];
    assert a == [a[0]] + a[1..];
  }

  /** The ranking is determined by the database. */
  lemma BoardUnique(db: Db, a: seq<Standing>, b: seq<Standing>)
    requires IsBoard(db, a) && IsBoard(db, b)
    ensures a == b
  {
    OrderedUnique(a, b);
  }

  lemma EarliestUnique(times: set<string>, a: Option<string>, b: Option<string>)
    requires IsEarliest(times, a) && IsEarliest(times, b)
    ensures a == b
  {
    if a.Some? && b.Some? {
      TextOrder.Total(a.value, b.value);
    }
  }

  lemma StandingUnique(db: Db, a: Standing, b: Standing)
    requires IsStanding(db, a) && IsStanding(db, b) && a.user == b.user
    ensures a == b
  {
    EarliestUnique(AcTimesOf(db, a.user), a.firstAcAt, b.firstAcAt);
  }

  lemma StandingExists(db: Db, user: nat) returns (s: Standing)
    requires user in db.users && Listed(db, user)
    ensures s.user == user && IsStanding(db, s)
  {
    var times := AcTimesOf(db, user);
    var first: Option<string> := None;
    if times != {} {
      var least := TextOrder.LeastExists(times);
      first := Some(least);
    }
    s := Standing(user, |AcRowsOf(db, user)|, Sum(db, RowsOf(db, user)), first, db.users[user].createdAt);
  }

  lemma {:induction false} Inserted(board: seq<Standing>, s: Standing) returns (board': seq<Standing>)
    requires Ordered(board) && s !in board
    ensures Ordered(board') && forall x :: x in board' <==> x in board || x == s
    decreases |board|
  {
    if board == [] {
      return [s];
    }
    AheadTotal(s, board[0]);
    TailMembers(board);
    if Ahead(s, board[0]) {
      forall k | 0 <= k < |board|
        ensures Ahead(s, board[k])
      {
        if k > 0 {
          AheadTransitive(s, board[0], board[k]);
        }
      }
      return [s] + board;
    }
    var rest := Inserted(board[1..], s);
    board' := [board[0]] + rest;
    forall k | 0 <= k < |rest|
      ensures Ahead(board[0], rest[k])
    {
      assert rest[k] in rest;
    }
    assert board == [board[0]] + board[1..];
  }

  lemma {:induction false} BoardOf(db: Db, users: set<nat>) returns (board: seq<Standing>)
    ensures Ordered(board) && forall s :: s in board <==> IsStanding(db, s) && s.user in users
    decreases users
  {
    if users == {} {
      return [];
    }
    var user :| user in users;
    board := BoardOf(db, users - {user});
    if user in db.users && Listed(db, user) {
      var s := StandingExists(db, user);
      forall t | IsStanding(db, t) && t.user == user
        ensures t == s
      {
        StandingUnique(db, s, t);
      }
      board := Inserted(board, s);
    }
  }

  /** Every database has a ranking. */
  lemma BoardExists(db: Db) returns (board: seq<Standing>)
    ensures IsBoard(db, board)
  {
    board := BoardOf(db, db.users.Keys);
  }

  /** In every reachable state the ranking is the one that the submissions on visible problems
      define, listing exactly the users who have one. */
  lemma BoardIsOfSubmissions(s: Lifecycle.System, steps: seq<Lifecycle.Step>, s': Lifecycle.System,
                             board: seq<Standing>)
    requires Lifecycle.Init(s) && Lifecycle.IsRun(s, steps, s')
    ensures IsBoard(s'.db, board) <==> Ordered(board) && forall x :: x in board <==> IsDirectStanding(s'.db, x)
  {
    Lifecycle.InitHolds(s);
    Lifecycle.RunKeeps(s, steps, s');
    forall x
      ensures IsStanding(s'.db, x) <==> IsDirectStanding(s'.db, x)
    {
      StandingsAgree(s'.db, x);
    }
  }

  /** The ranking read on its columns: solved problems descending, then submissions ascending, then
      the first AC ascending with its absence last, then the registration, then the id. */
  lemma RankingOrder(db: Db, board: seq<Standing>, i: nat, k: nat)
    requires IsBoard(db, board) && i < k < |board|
    ensures
      var a, b := board[i], board[k];
      && a.acCount >= b.acCount
      && (a.acCount == b.acCount ==> a.submitCount <= b.submitCount)
      && (a.acCount == b.acCount && a.submitCount == b.submitCount ==>
            && (a.firstAcAt.None? ==> b.firstAcAt.None?)
            && (a.firstAcAt.Some? && b.firstAcAt.Some? ==> !TextOrder.Less(b.firstAcAt.value, a.firstAcAt.value))
            && (a.firstAcAt == b.firstAcAt ==>
                  && !TextOrder.Less(b.createdAt, a.createdAt)
                  && (a.createdAt == b.createdAt ==> a.user < b.user)))
  {
    var a, b := board[i], board[k];
    assert Ahead(a, b);
    TextOrder.Irreflexive(a.createdAt);
    if TextOrder.Less(a.createdAt, b.createdAt) {
      TextOrder.Asymmetric(a.createdAt, b.createdAt);
    }
    if EarlierAc(a.firstAcAt, b.firstAcAt) {
      TextOrder.Asymmetric(a.firstAcAt.value, b.firstAcAt.value);
    }
    if a.firstAcAt.Some? {
      TextOrder.Irreflexive(a.firstAcAt.value);
    }
  }

  // ----------------------------------------------------------------------------- total

  /** `SELECT COUNT(*)` over the same groups, without the join to `users`. */
  ghost function CountedUsers(db: Db): set<nat> {
    set k | k in db.statuses && Listed(db, k.0) :: k.0
  }

  ghost function UsersIn(board: seq<Standing>): set<nat> {
    set s | s in board :: s.user
  }

  lemma {:induction false} DistinctUsersCounted(board: seq<Standing>)
    requires forall i, j :: 0 <= i < j < |board| ==> board[i].user != board[j].user
    ensures |UsersIn(board)| == |board|
  {
    if board != [] {
      var n := |board| - 1;
      var before := board[..n];
      DistinctUsersCounted(before);
      assert board == before + [board[n]];
      assert UsersIn(board) == UsersIn(before) + {board[n].user};
      assert board[n].user !in UsersIn(before);
    }
  }

  /** The total reported beside a page is the length of the ranking. */
  lemma TotalIsLength(db: Db, board: seq<Standing>)
    requires Lifecycle.Referential(db) && IsBoard(db, board)
    ensures |CountedUsers(db)| == |board|
  {
    forall i, j | 0 <= i < j < |board|
      ensures board[i].user != board[j].user
    {
      assert board[i] in board && board[j] in board;
      AheadIrreflexive(board[i]);
      if board[i].user == board[j].user {
        StandingUnique(db, board[i], board[j]);
      }
    }
    DistinctUsersCounted(board);
    forall user
      ensures user in CountedUsers(db) <==> user in UsersIn(board)
    {
      CountedIffRanked(db, board, user);
    }
    assert CountedUsers(db) == UsersIn(board);
  }

  lemma CountedIffRanked(db: Db, board: seq<Standing>, user: nat)
    requires Lifecycle.Referential(db) && IsBoard(db, board)
    ensures user in CountedUsers(db) <==> user in UsersIn(board)
  {
    if user in CountedUsers(db) {
      var s := StandingExists(db, user);
      assert s in board;
    }
    if user in UsersIn(board) {
      var s :| s in board && s.user == user;
      var k :| k in RowsOf(db, user);
      assert k in db.statuses && k.0 == user;
    }
  }

  // ----------------------------------------------------------------------------- pages

  datatype PageResult = BadPage | Page(items: seq<Standing>, total: nat)

  function Min(a: int, b: int): int {
    if a < b then a else b
  }

  /** `LIMIT size OFFSET (page - 1) * size`. */
  function Window(board: seq<Standing>, page: int, size: int): seq<Standing>
    requires page >= 1 && size >= 1
  {
    var offset := (page - 1) * size;
    if offset >= |board| then [] else board[offset..Min(offset + size, |board|)]
  }

  function TotalPages(total: nat, size: int): int
    requires size >= 1
  {
    if total == 0 then 0 else (total + size - 1) / size
  }

  function PagesUpTo(board: seq<Standing>, n: nat, size: int): seq<Standing>
    requires size >= 1
  {
    if n == 0 then [] else PagesUpTo(board, n - 1, size) + Window(board, n, size)
  }

  lemma {:induction false} PagesArePrefix(board: seq<Standing>, n: nat, size: int)
    requires size >= 1
    ensures n * size >= 0 && PagesUpTo(board, n, size) == board[..Min(n * size, |board|)]
  {
    if n > 0 {
      PagesArePrefix(board, n - 1, size);
      assert (n - 1) * size + size == n * size;
      PrefixGrows(board, (n - 1) * size, size);
    }
  }

  lemma PrefixGrows(board: seq<Standing>, offset: nat, size: int)
    requires size >= 1
    ensures
      var end := Min(offset + size, |board|);
      board[..Min(offset, |board|)] + (if offset >= |board| then [] else board[offset..end]) == board[..end]
  {
  }

  lemma TotalPagesCover(total: nat, size: int)
    requires size >= 1
    ensures TotalPages(total, size) >= 0 && total <= TotalPages(total, size) * size < total + size
  {
    if total > 0 {
      var q := (total + size - 1) / size;
      assert q * size + (total + size - 1) % size == total + size - 1;
    }
  }

  /** The pages from the first to the last announced one make up the whole ranking. */
  lemma PagesMakeTheBoard(board: seq<Standing>, size: int)
    requires size >= 1
    ensures TotalPages(|board|, size) >= 0 && PagesUpTo(board, TotalPages(|board|, size), size) == board
  {
    TotalPagesCover(|board|, size);
    PagesArePrefix(board, TotalPages(|board|, size), size);
    assert board[..|board|] == board;
  }

  /** Every announced page shows someone, and no later page does. */
  lemma PageShownIff(board: seq<Standing>, page: int, size: int)
    requires page >= 1 && size >= 1
    ensures Window(board, page, size) != [] <==> page <= TotalPages(|board|, size)
  {
    var last := TotalPages(|board|, size);
    TotalPagesCover(|board|, size);
    assert (page - 1) * size + size == page * size;
    if page <= last {
      Monotone(page, last, size);
    } else {
      Monotone(last, page - 1, size);
    }
  }

  lemma Monotone(a: int, b: int, size: int)
    requires a <= b && size >= 1
    ensures a * size <= b * size
  {
    assert b * size - a * size == (b - a) * size;
  }

  /** The answers of the two queries in one read transaction: the number of groups, and the
      ordered rows. */
  ghost predicate Answers(db: Db, counted: nat, board: seq<Standing>) {
    counted == |CountedUsers(db)| && IsBoard(db, board)
  }

  /** One page of the ranking. */
  method Query(ghost db: Db, counted: nat, board: seq<Standing>, page: int, size: int) returns (r: PageResult)
    requires Lifecycle.Referential(db) && Answers(db, counted, board)
    ensures r.BadPage? <==> page < 1 || size < 1
    ensures r.Page? ==> r.total == |board| && r.items == Window(board, page, size)
  {
    if page < 1 || size < 1 {
      return BadPage;
    }
    var offset := (page - 1) * size;
    var items := [];
    var k := offset;
    while k < |board| && |items| < size
      invariant offset <= k && k == offset + |items| && |items| <= size
      invariant k > offset ==> k <= |board|
      invariant offset <= |board| ==> items == board[offset..k]
      invariant offset > |board| ==> items == []
    {
      items := items + [board[k]];
      k := k + 1;
    }
    TotalIsLength(db, board);
    return Page(items, counted);
  }

  /** The handler numbers the rows of a page: each shows its position in the whole ranking. */
  method RankPage(ghost db: Db, counted: nat, board: seq<Standing>, page: int, size: int)
    returns (ranked: seq<(int, Standing)>)
    requires Lifecycle.Referential(db) && Answers(db, counted, board)
    requires page >= 1 && size >= 1
    ensures |ranked| == |Window(board, page, size)|
    ensures forall i :: 0 <= i < |ranked| ==> 1 <= ranked[i].0 <= |board| && ranked[i].1 == board[ranked[i].0 - 1]
    ensures forall i :: 0 <= i < |ranked| ==> ranked[i].0 == (page - 1) * size + i + 1
  {
    var result := Query(db, counted, board, page, size);
    ranked := Numbered(result.items, (page - 1) * size);
    WindowAt(board, page, size);
  }

  method Numbered(items: seq<Standing>, before: int) returns (ranked: seq<(int, Standing)>)
    ensures |ranked| == |items| && forall i :: 0 <= i < |items| ==> ranked[i] == (before + i + 1, items[i])
  {
    var rank := before;
    ranked := [];
    for i := 0 to |items|
      invariant |ranked| == i && rank == before + i
      invariant forall k :: 0 <= k < i ==> ranked[k] == (before + k + 1, items[k])
    {
      rank := rank + 1;
      ranked := ranked + [(rank, items[i])];
    }
  }

  lemma WindowAt(board: seq<Standing>, page: int, size: int)
    requires page >= 1 && size >= 1
    ensures forall i :: 0 <= i < |Window(board, page, size)| ==>
              && 0 <= (page - 1) * size + i < |board|
              && Window(board, page, size)[i] == board[(page - 1) * size + i]
  {
    var before, window := (page - 1) * size, Window(board, page, size);
    Monotone(0, page - 1, size);
    forall i | 0 <= i < |window|
      ensures 0 <= before + i < |board| && window[i] == board[before + i]
    {
      assert window == board[before..Min(before + size, |board|)];
    }
  }
}
