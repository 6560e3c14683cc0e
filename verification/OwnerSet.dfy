/** Spending a request budget on pull requests, changed heads first, without losing one (dashboard/owner_set.py). */
module OwnerSet {
  import opened Common
  import H = HeadState

  datatype Row = Row(number: Option<nat>, sha: string)
  datatype Listing = Listing(repository: string, rows: seq<Row>)

  /** A queued pull request: its kind, its repository's rank, and its number. */
  datatype Item = Item(kind: nat, rank: nat, number: nat, repository: string, row: Row)

  /** How a queued pull request ended: read now, shown from what is stored or blank, or left out with its repository. */
  datatype Outcome = Read | Unread | Skipped

  datatype Pull = Pull(row: Row, outcome: Outcome)
  datatype Error = RepositoryError(repository: string, budget: bool) | PullError(row: Row, budget: bool)

  // What a row is queued as

  /** A repository's name without case, and a number. */
  type Key = (string, nat)

  /** The detail kept of pull requests, the heads just read, and the pull requests to detail before anything else. */
  datatype Known = Known(detail: map<Key, H.Pull>, heads: map<Key, H.Head>, urgent: set<Key>)

  function HeadOf(known: Known, key: Key): Option<H.Head>
  {
    if key in known.heads then Some(known.heads[key]) else None
  }

  /** Changed, never detailed, or kept. */
  function KindOf(known: Known, repository: string, row: Row): (r: nat)
    ensures r <= KEPT
  {
    if row.number.None? then NEW
    else
      var key := (H.Fold(repository), row.number.value);
      if key in known.urgent then CHANGED
      else if key !in known.detail then NEW
      else if H.SameHead(known.detail[key], HeadOf(known, key)) then KEPT
      else CHANGED
  }

  const CHANGED: nat := 0
  const NEW: nat := 1
  const KEPT: nat := 2

  /** There is detail of it, and the head just read is the one it was built from. */
  predicate Matches(known: Known, key: Key)
  {
    key in known.detail && key in known.heads && H.SameHead(known.detail[key], Some(known.heads[key]))
  }

  /** Something asked for it first, or there is detail of it and the head has moved or is gone. */
  predicate IsChanged(known: Known, repository: string, row: Row)
  {
    row.number.Some?
    && var key := (H.Fold(repository), row.number.value);
       key in known.urgent || (key in known.detail && !Matches(known, key))
  }

  /** There is detail of it, its head has not moved, and nothing asked for it first. */
  predicate IsKept(known: Known, repository: string, row: Row)
  {
    row.number.Some?
    && var key := (H.Fold(repository), row.number.value);
       key !in known.urgent && Matches(known, key)
  }

  /** Whether it is detailed first, next or last. */
  function Turn(known: Known, item: Item): nat
  {
    if IsChanged(known, item.repository, item.row) then 0 else if IsKept(known, item.repository, item.row) then 2 else 1
  }

  /** By turn, then by the rank of its repository, then by its number. */
  predicate InTurn(known: Known, ranks: map<string, nat>, a: Item, b: Item)
  {
    var first, second := Turn(known, a), Turn(known, b);
    var rank, other := if a.repository in ranks then ranks[a.repository] else 0, if b.repository in ranks then ranks[b.repository] else 0;
    var number, next := if a.row.number.Some? then a.row.number.value else 0, if b.row.number.Some? then b.row.number.value else 0;
    first < second || (first == second && (rank < other || (rank == other && number <= next)))
  }

  lemma BeforeIsInTurn(known: Known, ranks: map<string, nat>, a: Item, b: Item)
    requires a == ItemOf(a.repository, a.row, known, ranks) && b == ItemOf(b.repository, b.row, known, ranks) && Before(a, b)
    ensures InTurn(known, ranks, a, b)
  {
  }

  /** Kept means that the head of the kept detail has not moved, and nothing asked for it first. */
  lemma KindMeans(known: Known, repository: string, row: Row)
    requires row.number.Some?
    ensures var key := (H.Fold(repository), row.number.value);
      && (KindOf(known, repository, row) == KEPT <==>
            key in known.detail && key !in known.urgent && H.SameHead(known.detail[key], HeadOf(known, key)))
      && (key in known.detail && !H.SameHead(known.detail[key], HeadOf(known, key)) ==> KindOf(known, repository, row) == CHANGED)
      && (key in known.detail && H.HeadDiffers(known.detail[key], HeadOf(known, key)) ==> KindOf(known, repository, row) == CHANGED)
  {
  }

  /** Every pull request whose head no longer matches its detail becomes urgent, and stays so whatever heads come next. */
  method MarkUrgent(known: Known) returns (marked: Known)
    ensures marked.detail == known.detail && marked.heads == known.heads
    ensures forall key :: key in marked.urgent <==>
      key in known.urgent || (key in known.detail && !H.SameHead(known.detail[key], HeadOf(known, key)))
  {
    var urgent := known.urgent;
    var left := known.detail.Keys;
    while left != {}
      invariant left <= known.detail.Keys
      invariant forall key :: key in urgent <==>
        key in known.urgent || (key in known.detail && key !in left && !H.SameHead(known.detail[key], HeadOf(known, key)))
      decreases left
    {
      var key :| key in left;
      left := left - {key};
      if !H.SameHead(known.detail[key], HeadOf(known, key)) { urgent := urgent + {key}; }
    }
    marked := known.(urgent := urgent);
  }

  // The queue

  predicate Before(a: Item, b: Item)
  {
    || a.kind < b.kind
    || (a.kind == b.kind && (a.rank < b.rank || (a.rank == b.rank && a.number <= b.number)))
  }

  predicate Ordered(queue: seq<Item>)
  {
    forall i, j :: 0 <= i < j < |queue| ==> Before(queue[i], queue[j])
  }

  /** Rows of one repository, in queue order. */
  function RowsOf(queue: seq<Item>, repository: string): (r: seq<Row>)
    ensures r != [] <==> exists i :: 0 <= i < |queue| && queue[i].repository == repository
  {
    if queue == [] then []
    else if queue[0].repository == repository then [queue[0].row] + RowsOf(queue[1..], repository)
    else RowsOf(queue[1..], repository)
  }

  function ItemOf(repository: string, row: Row, known: Known, ranks: map<string, nat>): Item
  {
    Item(KindOf(known, repository, row), if repository in ranks then ranks[repository] else 0,
         if row.number.Some? then row.number.value else 0, repository, row)
  }

  function Items(listing: Listing, known: Known, ranks: map<string, nat>): seq<Item>
  {
    Mapped(row => ItemOf(listing.repository, row, known, ranks), listing.rows)
  }

  function AllItems(listings: seq<Listing>, known: Known, ranks: map<string, nat>): seq<Item>
  {
    if listings == [] then []
    else Items(listings[0], known, ranks) + AllItems(listings[1..], known, ranks)
  }

  /** An item put into an ordered queue before those it ties with, so equal keys stay in listing order. */
  function Inserted(item: Item, queue: seq<Item>): seq<Item>
  {
    if queue == [] || Before(item, queue[0]) then [item] + queue
    else [queue[0]] + Inserted(item, queue[1..])
  }

  function Sorted(items: seq<Item>): seq<Item>
  {
    if items == [] then [] else Inserted(items[0], Sorted(items[1..]))
  }

  lemma {:induction false} InsertedIsOrdered(item: Item, queue: seq<Item>)
    requires Ordered(queue)
    ensures Ordered(Inserted(item, queue))
    ensures forall i :: 0 <= i < |Inserted(item, queue)| ==> Inserted(item, queue)[i] == item || Inserted(item, queue)[i] in queue
  {
    if queue != [] && !Before(item, queue[0]) {
      var later := queue[1..];
      assert forall i :: 0 <= i < |later| ==> later[i] == queue[i + 1];
      InsertedIsOrdered(item, later);
      var rest := Inserted(item, later);
      forall j | 0 <= j < |rest|
        ensures Before(queue[0], rest[j])
      {
        if rest[j] != item { assert rest[j] in later; }
      }
    } else if queue != [] {
      forall j | 0 <= j < |queue|
        ensures Before(item, queue[j])
      {
        if j > 0 { assert Before(queue[0], queue[j]); }
      }
    }
  }

  lemma {:induction false} SortedIsOrdered(items: seq<Item>)
    ensures Ordered(Sorted(items))
  {
    if items != [] {
      SortedIsOrdered(items[1..]);
      InsertedIsOrdered(items[0], Sorted(items[1..]));
    }
  }

  lemma {:induction false} InsertedKeepsRows(item: Item, queue: seq<Item>, repository: string)
    ensures |Inserted(item, queue)| == |queue| + 1
    ensures multiset(RowsOf(Inserted(item, queue), repository)) == multiset(RowsOf([item] + queue, repository))
  {
    OneAhead(item, queue, repository);
    if queue != [] && !Before(item, queue[0]) {
      InsertedKeepsRows(item, queue[1..], repository);
      OneAhead(item, queue[1..], repository);
      OneAhead(queue[0], queue[1..], repository);
      OneAhead(queue[0], Inserted(item, queue[1..]), repository);
      assert [queue[0]] + queue[1..] == queue;
    }
  }

  lemma OneAhead(item: Item, queue: seq<Item>, repository: string)
    ensures multiset(RowsOf([item] + queue, repository)) ==
      (if item.repository == repository then multiset{item.row} else multiset{}) + multiset(RowsOf(queue, repository))
  {
    assert ([item] + queue)[1..] == queue;
  }

  lemma {:induction false} SortedKeepsRows(items: seq<Item>, repository: string)
    ensures |Sorted(items)| == |items|
    ensures multiset(RowsOf(Sorted(items), repository)) == multiset(RowsOf(items, repository))
  {
    if items != [] {
      SortedKeepsRows(items[1..], repository);
      InsertedKeepsRows(items[0], Sorted(items[1..]), repository);
      OneAhead(items[0], items[1..], repository);
      OneAhead(items[0], Sorted(items[1..]), repository);
      assert [items[0]] + items[1..] == items;
    }
  }

  predicate Distinct(listings: seq<Listing>)
  {
    forall i, j :: 0 <= i < j < |listings| ==> listings[i].repository != listings[j].repository
  }

  lemma {:induction false} RowsAppend(a: seq<Item>, b: seq<Item>, repository: string)
    ensures RowsOf(a + b, repository) == RowsOf(a, repository) + RowsOf(b, repository)
  {
    if a == [] {
      assert a + b == b;
    } else {
      RowsAppend(a[1..], b, repository);
      TailOfSum(a, b);
      assert (a + b)[0] == a[0];
      Grouped([a[0].row], RowsOf(a[1..], repository), RowsOf(b, repository));
    }
  }

  lemma {:induction false} RowsOfOne(items: seq<Item>, rows: seq<Row>, repository: string)
    requires |items| == |rows| && forall i :: 0 <= i < |items| ==> items[i].repository == repository && items[i].row == rows[i]
    ensures RowsOf(items, repository) == rows
  {
    if items != [] {
      RowsOfOne(items[1..], rows[1..], repository);
      assert [rows[0]] + rows[1..] == rows;
    }
  }

  lemma {:induction false} RowsQueued(listings: seq<Listing>, known: Known, ranks: map<string, nat>, k: nat)
    requires Distinct(listings) && k < |listings|
    ensures RowsOf(AllItems(listings, known, ranks), listings[k].repository) == listings[k].rows
  {
    var first, rest := Items(listings[0], known, ranks), AllItems(listings[1..], known, ranks);
    RowsAppend(first, rest, listings[k].repository);
    if k == 0 {
      RowsOfOne(first, listings[0].rows, listings[0].repository);
      NotQueued(listings[1..], known, ranks, listings[0].repository);
    } else {
      RowsQueued(listings[1..], known, ranks, k - 1);
      assert RowsOf(first, listings[k].repository) == [];
    }
  }

  lemma {:induction false} NotQueued(listings: seq<Listing>, known: Known, ranks: map<string, nat>, repository: string)
    requires forall i :: 0 <= i < |listings| ==> listings[i].repository != repository
    ensures RowsOf(AllItems(listings, known, ranks), repository) == []
  {
    if listings != [] {
      RowsAppend(Items(listings[0], known, ranks), AllItems(listings[1..], known, ranks), repository);
      NotQueued(listings[1..], known, ranks, repository);
    }
  }

  /** The queue before it is sorted: every listing's rows in turn. */
  method Queued(listings: seq<Listing>, known: Known, ranks: map<string, nat>) returns (items: seq<Item>)
    ensures items == AllItems(listings, known, ranks)
  {
    items := [];
    Ends(listings);
    for k := 0 to |listings|
      invariant items + AllItems(listings[k..], known, ranks) == AllItems(listings, known, ranks)
    {
      ghost var was, added := items, Items(listings[k], known, ranks);
      SplitAt(listings, k);
      assert listings[k..][1..] == listings[k + 1..];
      for n := 0 to |listings[k].rows|
        invariant items == was + added[..n]
      {
        SplitAt(added, n);
        Grouped(was, added[..n], [added[n]]);
        items := items + [ItemOf(listings[k].repository, listings[k].rows[n], known, ranks)];
      }
      Ends(added);
      Grouped(was, added, AllItems(listings[k + 1..], known, ranks));
    }
    assert items + [] == items;
  }

  /** Every listed row once, by the kind its detail and head give it, and within a kind by its repository's rank and its
      number. */
  method QueuePulls(listings: seq<Listing>, known: Known, ranks: map<string, nat>) returns (queue: seq<Item>)
    requires Distinct(listings)
    ensures Ordered(queue)
    ensures forall k :: 0 <= k < |listings| ==> multiset(RowsOf(queue, listings[k].repository)) == multiset(listings[k].rows)
    ensures forall i :: 0 <= i < |queue| ==> queue[i] == ItemOf(queue[i].repository, queue[i].row, known, ranks)
    ensures forall i, j :: 0 <= i < j < |queue| ==> InTurn(known, ranks, queue[i], queue[j])
  {
    var items := Queued(listings, known, ranks);
    queue := Sorted(items);
    SortedIsOrdered(items);
    SortedKeepsItems(items);
    AllBuilt(listings, known, ranks);
    forall k | 0 <= k < |listings|
      ensures multiset(RowsOf(queue, listings[k].repository)) == multiset(listings[k].rows)
    {
      SortedKeepsRows(items, listings[k].repository);
      RowsQueued(listings, known, ranks, k);
    }
    forall i, j | 0 <= i < j < |queue|
      ensures InTurn(known, ranks, queue[i], queue[j])
    {
      BeforeIsInTurn(known, ranks, queue[i], queue[j]);
    }
  }

  lemma {:induction false} SortedKeepsItems(items: seq<Item>)
    ensures forall i :: 0 <= i < |Sorted(items)| ==> Sorted(items)[i] in items
  {
    if items != [] {
      SortedKeepsItems(items[1..]);
      SortedIsOrdered(items[1..]);
      InsertedIsOrdered(items[0], Sorted(items[1..]));
      forall i | 0 <= i < |Sorted(items)|
        ensures Sorted(items)[i] in items
      {
        if Sorted(items)[i] != items[0] { assert Sorted(items)[i] in items[1..]; }
      }
    }
  }

  lemma {:induction false} AllBuilt(listings: seq<Listing>, known: Known, ranks: map<string, nat>)
    ensures forall item :: item in AllItems(listings, known, ranks) ==> item == ItemOf(item.repository, item.row, known, ranks)
  {
    if listings != [] {
      AllBuilt(listings[1..], known, ranks);
    }
  }

  // Detailing

  function RowsShown(pulls: seq<Pull>): (r: seq<Row>)
    ensures |r| == |pulls|
  {
    Mapped((pull: Pull) => pull.row, pulls)
  }

  lemma ShowsOneMore(pulls: seq<Pull>, pull: Pull)
    ensures RowsShown(pulls + [pull]) == RowsShown(pulls) + [pull.row]
  {
  }

  lemma RowsOfOneMore(queue: seq<Item>, i: nat, repository: string)
    requires i < |queue|
    ensures RowsOf(queue[..i + 1], repository) ==
      RowsOf(queue[..i], repository) + if queue[i].repository == repository then [queue[i].row] else []
  {
    SplitAt(queue, i);
    RowsAppend(queue[..i], [queue[i]], repository);
    RowsOfSingle(queue[i], repository);
  }

  lemma RowsOfSingle(item: Item, repository: string)
    ensures RowsOf([item], repository) == if item.repository == repository then [item.row] else []
  {
    assert [item][1..] == [];
  }

  /** After some of the queue: a repository shows the rows taken from it so far, or it is left out. */
  ghost predicate Placed(done: seq<Item>, built: map<string, seq<Pull>>, blocked: set<string>, repository: string)
  {
    if repository in built then repository !in blocked && RowsShown(built[repository]) == RowsOf(done, repository) != []
    else RowsOf(done, repository) == [] || repository in blocked
  }

  ghost predicate AllPlaced(done: seq<Item>, built: map<string, seq<Pull>>, blocked: set<string>)
  {
    forall repository :: Placed(done, built, blocked, repository)
  }

  function Shown(built: map<string, seq<Pull>>, item: Item, outcome: Outcome): map<string, seq<Pull>>
  {
    if outcome == Skipped then built
    else built[item.repository := (if item.repository in built then built[item.repository] else []) + [Pull(item.row, outcome)]]
  }

  lemma PlacedNext(queue: seq<Item>, i: nat, built: map<string, seq<Pull>>, blocked: set<string>, outcome: Outcome,
                   nowBlocked: set<string>)
    requires i < |queue| && AllPlaced(queue[..i], built, blocked)
    requires nowBlocked == if outcome == Skipped then blocked + {queue[i].repository} else blocked
    requires outcome == Skipped ==> queue[i].repository !in built
    requires outcome != Skipped ==> queue[i].repository !in blocked
    ensures AllPlaced(queue[..i + 1], Shown(built, queue[i], outcome), nowBlocked)
  {
    var done, shown := queue[..i + 1], Shown(built, queue[i], outcome);
    forall repository
      ensures Placed(done, shown, nowBlocked, repository)
    {
      assert Placed(queue[..i], built, blocked, repository);
      RowsOfOneMore(queue, i, repository);
      if repository == queue[i].repository && outcome != Skipped {
        ShowsOneMore(if repository in built then built[repository] else [], Pull(queue[i].row, outcome));
      }
    }
  }

  /** Reads come before the stop, and what is unread before it failed by itself. */
  ghost predicate StopsOnce(queue: seq<Item>, outcomes: seq<Outcome>, errors: seq<Error>, stop: nat)
    requires |outcomes| <= |queue|
  {
    forall j :: 0 <= j < |outcomes| ==>
      if outcomes[j] == Read then j < stop
      else outcomes[j] == Unread && j < stop ==> PullError(queue[j].row, false) in errors
  }

  /** No pull request is left unread for the budget while one queued after it is read. */
  ghost predicate ReadsComeFirst(queue: seq<Item>, outcomes: seq<Outcome>, errors: seq<Error>)
    requires |outcomes| == |queue|
  {
    forall i, j :: 0 <= i < |queue| && 0 <= j < |queue| && outcomes[j] == Read && outcomes[i] == Unread ==>
      (j < i && Before(queue[j], queue[i])) || PullError(queue[i].row, false) in errors
  }

  lemma StopsInOrder(queue: seq<Item>, outcomes: seq<Outcome>, errors: seq<Error>, stop: nat)
    requires |outcomes| == |queue| && Ordered(queue) && StopsOnce(queue, outcomes, errors, stop)
    ensures ReadsComeFirst(queue, outcomes, errors)
  {
  }

  /** How a read ended: the calls it took, and whether it failed, for the budget or otherwise. */
  datatype Ask = Ask(used: nat, failed: bool, budget: bool)

  /** What GitHub answers in this pass. */
  datatype GitHub = GitHub(inventory: string -> Ask, detail: Item -> Ask)

  ghost predicate NothingFails(github: GitHub)
  {
    (forall repository :: !github.inventory(repository).failed) && forall item :: !github.detail(item).failed
  }

  class OwnerSetCollector {
    var calls: nat
    const maxCalls: nat
    var inventories: set<string>
    var errors: seq<Error>
    var blocked: set<string>
    var built: map<string, seq<Pull>>

    constructor (maxCalls: nat)
      ensures this.maxCalls == maxCalls && calls == 0 && inventories == {} && errors == []
    {
      this.maxCalls := maxCalls;
      calls, inventories, errors, blocked, built := 0, {}, [], {}, map[];
    }

    /** Reads a repository's inventory. A failed read is recorded, and may have spent the budget. */
    method TakeInventory(repository: string, ask: Ask) returns (spent: bool)
      modifies this`calls, this`inventories, this`errors
      ensures calls == old(calls) + ask.used && spent == (ask.failed && ask.budget)
      ensures inventories == if ask.failed then old(inventories) else old(inventories) + {repository}
      ensures errors == old(errors) + if ask.failed then [RepositoryError(repository, ask.budget)] else []
    {
      calls := calls + ask.used;
      if ask.failed {
        errors := errors + [RepositoryError(repository, ask.budget)];
        return ask.budget;
      }
      inventories := inventories + {repository};
      return false;
    }

    /** Reads the inventory of its repository if it is still to be read, and then the pull request. The first of the two that
        fails is recorded, and ends it. */
    method DetailQueued(item: Item, github: GitHub) returns (read: bool, stopped: bool)
      modifies this`calls, this`inventories, this`errors
      ensures var first, second := github.inventory(item.repository), github.detail(item);
        if item.repository !in old(inventories) && first.failed then
          && !read && stopped == first.budget && inventories == old(inventories) && calls == old(calls) + first.used
          && errors == old(errors) + [RepositoryError(item.repository, first.budget)]
        else
          && read == !second.failed && stopped == (second.failed && second.budget)
          && inventories == old(inventories) + {item.repository}
          && calls == old(calls) + (if item.repository in old(inventories) then 0 else first.used) + second.used
          && errors == old(errors) + if second.failed then [PullError(item.row, second.budget)] else []
    {
      if item.repository !in inventories {
        var spent := TakeInventory(item.repository, github.inventory(item.repository));
        if spent { return false, true; }
      }
      if item.repository !in inventories { return false, false; }
      var ask := github.detail(item);
      calls := calls + ask.used;
      if ask.failed {
        errors := errors + [PullError(item.row, ask.budget)];
        return false, ask.budget;
      }
      return true, false;
    }

    /** One queued pull request. It is skipped with a repository that could not be read, shown unread once the budget is spent,
        when nothing more is asked of GitHub, and else asked for. */
    method PlaceQueued(item: Item, budgetHit: bool, github: GitHub) returns (outcome: Outcome, hit: bool)
      modifies this`calls, this`inventories, this`errors, this`blocked
      ensures old(errors) <= errors && old(inventories) <= inventories <= old(inventories) + {item.repository}
      ensures item.repository in old(blocked) ==>
        outcome == Skipped && hit == budgetHit && calls == old(calls) && errors == old(errors) && inventories == old(inventories)
      ensures item.repository !in old(blocked) && (budgetHit || old(calls) >= maxCalls) ==>
        outcome == Unread && hit && calls == old(calls) && errors == old(errors) && inventories == old(inventories)
      ensures item.repository !in old(blocked) && !budgetHit && old(calls) < maxCalls ==>
        var first, second := github.inventory(item.repository), github.detail(item);
        if item.repository !in old(inventories) && first.failed then
          && outcome == (if first.budget then Unread else Skipped) && hit == first.budget && inventories == old(inventories)
          && errors == old(errors) + [RepositoryError(item.repository, first.budget)]
        else
          && outcome == (if second.failed then Unread else Read) && hit == (second.failed && second.budget)
          && item.repository in inventories
          && errors == old(errors) + if second.failed then [PullError(item.row, second.budget)] else []
      ensures blocked == if outcome == Skipped then old(blocked) + {item.repository} else old(blocked)
    {
      if item.repository in blocked {
        return Skipped, budgetHit;
      }
      if budgetHit || calls >= maxCalls {
        return Unread, true;
      }
      var read, stopped := DetailQueued(item, github);
      if !read && item.repository !in inventories && !stopped {
        blocked := blocked + {item.repository};
        return Skipped, budgetHit;
      }
      return if read then Read else Unread, budgetHit || stopped;
    }

    /** The same placing, as the queue needs it. */
    method PlaceOne(item: Item, budgetHit: bool, github: GitHub) returns (outcome: Outcome, hit: bool)
      modifies this`calls, this`inventories, this`errors, this`blocked
      ensures old(errors) <= errors && old(inventories) <= inventories <= old(inventories) + {item.repository}
      ensures budgetHit ==> hit && calls == old(calls) && errors == old(errors) && outcome != Read
      ensures outcome == Read ==> !hit && item.repository in inventories
      ensures outcome == Unread ==> hit || (item.repository in inventories && PullError(item.row, false) in errors)
      ensures outcome == Skipped ==> item.repository in blocked && hit == budgetHit
      ensures outcome == Skipped && item.repository !in old(blocked) ==>
        item.repository !in old(inventories) && !budgetHit && RepositoryError(item.repository, false) in errors
      ensures outcome != Skipped ==> item.repository !in blocked
      ensures !hit && NothingFails(github) && old(blocked) == {} ==> outcome == Read
      ensures blocked == if outcome == Skipped then old(blocked) + {item.repository} else old(blocked)
    {
      outcome, hit := PlaceQueued(item, budgetHit, github);
    }

    /** Places the queue from its front, with nothing blocked or built yet. */
    method PlaceAll(queue: seq<Item>, budgetHit: bool, github: GitHub) returns (hit: bool, ghost outcomes: seq<Outcome>, ghost stop: nat)
      requires blocked == {} && built == map[]
      modifies this
      ensures |outcomes| == |queue| && StopsOnce(queue, outcomes, errors, stop) && AllPlaced(queue, built, blocked)
      ensures forall repository :: repository in blocked ==> repository !in built && RepositoryError(repository, false) in errors
      ensures budgetHit ==> hit && calls == old(calls) && errors == old(errors)
      ensures !hit && NothingFails(github) ==> forall i :: 0 <= i < |outcomes| ==> outcomes[i] == Read
    {
      hit, outcomes := budgetHit, [];
      stop := if hit then 0 else |queue|;
      for i := 0 to |queue|
        invariant |outcomes| == i && (hit ==> stop <= i) && (!hit ==> stop == |queue|)
        invariant StopsOnce(queue, outcomes, errors, stop)
        invariant !hit && NothingFails(github) ==> blocked == {} && forall j :: 0 <= j < i ==> outcomes[j] == Read
        invariant budgetHit ==> hit && calls == old(calls) && errors == old(errors)
        invariant AllPlaced(queue[..i], built, blocked)
        invariant forall repository :: repository in blocked ==>
          repository !in built && RepositoryError(repository, false) in errors
        invariant forall repository :: repository in built ==> repository in inventories || hit
      {
        ghost var was := blocked;
        var outcome, now := PlaceOne(queue[i], hit, github);
        if now && !hit { stop := i; }
        PlacedNext(queue, i, built, was, outcome, blocked);
        hit, outcomes := now, outcomes + [outcome];
        built := Shown(built, queue[i], outcome);
      }
      Ends(queue);
    }

    /** Every listed pull request of a repository is shown once, or none is and the failure of its inventory is recorded. */
    method DetailChangedFirst(listings: seq<Listing>, known: Known, ranks: map<string, nat>, budgetHit: bool, github: GitHub)
        returns (hit: bool, ghost queue: seq<Item>, ghost outcomes: seq<Outcome>)
      requires Distinct(listings)
      modifies this
      ensures forall k :: 0 <= k < |listings| && listings[k].rows != [] ==>
        if listings[k].repository in built
          then multiset(RowsShown(built[listings[k].repository])) == multiset(listings[k].rows)
          else RepositoryError(listings[k].repository, false) in errors
      ensures budgetHit ==> hit && calls == old(calls) && errors == old(errors)
      ensures |outcomes| == |queue| && Ordered(queue) && ReadsComeFirst(queue, outcomes, errors)
      ensures !hit && NothingFails(github) ==> forall i :: 0 <= i < |outcomes| ==> outcomes[i] == Read
    {
      blocked, built := {}, map[];
      var queued := QueuePulls(listings, known, ranks);
      queue := queued;
      ghost var stop: nat;
      hit, outcomes, stop := PlaceAll(queued, budgetHit, github);
      StopsInOrder(queued, outcomes, errors, stop);
      forall k | 0 <= k < |listings| && listings[k].rows != []
        ensures if listings[k].repository in built
          then multiset(RowsShown(built[listings[k].repository])) == multiset(listings[k].rows)
          else RepositoryError(listings[k].repository, false) in errors
      {
        assert Placed(queued, built, blocked, listings[k].repository);
        assert listings[k].rows[0] in multiset(listings[k].rows);
      }
    }
  }
}
