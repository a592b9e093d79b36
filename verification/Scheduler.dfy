/** Requests ordered by (priority, request id), as Python orders the pairs. */
module RequestOrder {

  datatype Item = Item(priority: int, id: string)

  /** Strings compare by their first differing character; a prefix comes first. */
  predicate StringLe(a: string, b: string) {
    a == [] || (b != [] && (a[0] < b[0] || (a[0] == b[0] && StringLe(a[1..], b[1..]))))
  }

  predicate Le(x: Item, y: Item) {
    x.priority < y.priority || (x.priority == y.priority && StringLe(x.id, y.id))
  }

  lemma {:induction false} StringTotal(a: string, b: string)
    ensures StringLe(a, b) || StringLe(b, a)
    ensures StringLe(a, b) && StringLe(b, a) ==> a == b
  {
    if a != [] && b != [] {
      StringTotal(a[1..], b[1..]);
      assert a == [a[0]] + a[1..] && b == [b[0]] + b[1..];
    }
  }

  lemma {:induction false} StringTransitive(a: string, b: string, c: string)
    requires StringLe(a, b) && StringLe(b, c)
    ensures StringLe(a, c)
  {
    if a != [] && a[0] == b[0] == c[0] { StringTransitive(a[1..], b[1..], c[1..]); }
  }

  /** Alphabetical order, by the first position where the strings differ or one ends. */
  ghost predicate Precedes(a: string, b: string) {
    exists k :: DiffersAt(a, b, k)
  }

  predicate DiffersAt(a: string, b: string, k: int) {
    && 0 <= k <= |a| && k < |b| && a[..k] == b[..k]
    && (k == |a| || a[k] < b[k])
  }

  /** The lower number goes first, and among equal numbers the id that precedes. */
  ghost predicate GoesFirst(x: Item, y: Item) {
    && x.priority <= y.priority
    && (x.priority == y.priority ==> x.id == y.id || Precedes(x.id, y.id))
  }

  lemma {:induction false} StringLeIff(a: string, b: string)
    ensures StringLe(a, b) <==> a == b || Precedes(a, b)
  {
    if a != [] && b != [] && a[0] == b[0] {
      StringLeIff(a[1..], b[1..]);
      assert a == [a[0]] + a[1..] && b == [b[0]] + b[1..];
      if k :| DiffersAt(a[1..], b[1..], k) {
        assert a[..k + 1] == [a[0]] + a[1..][..k] && b[..k + 1] == [b[0]] + b[1..][..k];
        assert DiffersAt(a, b, k + 1);
      }
      if k :| DiffersAt(a, b, k) {
        assert k > 0;
        assert a[1..][..k - 1] == a[..k][1..] && b[1..][..k - 1] == b[..k][1..];
        assert DiffersAt(a[1..], b[1..], k - 1);
      }
    } else {
      assert a != b && StringLe(a, b) ==> DiffersAt(a, b, 0);
      assert forall k :: 0 < k <= |a| && k < |b| ==> a[..k][0] == a[0] && b[..k][0] == b[0];
    }
  }

  /** The order of the queue is the one the requests ask for. */
  lemma {:induction false} LeIffGoesFirst()
    ensures forall x, y :: Le(x, y) <==> GoesFirst(x, y)
  {
    forall x: Item, y: Item ensures Le(x, y) <==> GoesFirst(x, y) { StringLeIff(x.id, y.id); }
  }

  /** The pairs are totally ordered. */
  lemma {:induction false} TotalOrder()
    ensures forall x, y :: Le(x, y) || Le(y, x)
    ensures forall x, y :: Le(x, y) && Le(y, x) ==> x == y
    ensures forall x, y, z :: Le(x, y) && Le(y, z) ==> Le(x, z)
  {
    forall x: Item, y: Item ensures Le(x, y) || Le(y, x) ensures Le(x, y) && Le(y, x) ==> x == y {
      StringTotal(x.id, y.id);
    }
    forall x: Item, y: Item, z: Item | Le(x, y) && Le(y, z) ensures Le(x, z) {
      if x.priority == y.priority == z.priority { StringTransitive(x.id, y.id, z.id); }
    }
  }
}

/** Binary heaps in a list, as heapq keeps them: the parent of k is (k - 1) / 2. */
module Heap {
  import opened RequestOrder

  type Queue = seq<Item>

  function Parent(k: int): int
    requires k > 0
  {
    (k - 1) / 2
  }

  /** Every edge whose upper end is at `from` or later is in order. */
  predicate OrderedFrom(q: Queue, from: int) {
    forall k {:trigger Parent(k)} :: 0 < k < |q| && Parent(k) >= from ==> Le(q[Parent(k)], q[k])
  }

  predicate IsHeap(q: Queue) { OrderedFrom(q, 0) }

  function Swap(q: Queue, i: int, j: int): Queue
    requires 0 <= i < |q| && 0 <= j < |q|
  {
    q[i := q[j]][j := q[i]]
  }

  lemma {:induction false} SwapKeepsItems(q: Queue, i: int, j: int)
    requires 0 <= i < |q| && 0 <= j < |q|
    ensures multiset(Swap(q, i, j)) == multiset(q)
  {
  }

  lemma {:induction false} RootIsLeast(q: Queue, k: int)
    requires IsHeap(q) && 0 <= k < |q|
    ensures Le(q[0], q[k])
    decreases k
  {
    TotalOrder();
    if k > 0 { RootIsLeast(q, Parent(k)); }
  }

  // ---------- sifting ----------

  /** All edges are in order but the one above `i`, and `i`'s children are
      already no smaller than its parent. */
  predicate OrderedButAbove(q: Queue, i: int) {
    && (forall k :: 0 < k < |q| && k != i ==> Le(q[Parent(k)], q[k]))
    && (forall k :: 0 < k < |q| && Parent(k) == i && i > 0 ==> Le(q[Parent(i)], q[k]))
  }

  lemma {:induction false} SiftUpStep(q: Queue, i: int)
    requires 0 < i < |q| && OrderedButAbove(q, i) && !Le(q[Parent(i)], q[i])
    ensures OrderedButAbove(Swap(q, Parent(i), i), Parent(i))
  {
    TotalOrder();
    var p, r := Parent(i), Swap(q, Parent(i), i);
    forall k | 0 < k < |r| && k != p ensures Le(r[Parent(k)], r[k]) {
      assert k != i ==> Le(q[Parent(k)], q[k]);
    }
    forall k | 0 < k < |r| && Parent(k) == p && p > 0 ensures Le(r[Parent(p)], r[k]) {
      assert Le(q[Parent(p)], q[p]);
      assert k != i ==> Le(q[p], q[k]);
    }
  }

  /** heappush's sift: move the item at the end up to its place. */
  method SiftUp(q: Queue, start: int) returns (r: Queue)
    requires 0 <= start < |q| && OrderedButAbove(q, start)
    ensures IsHeap(r) && multiset(r) == multiset(q) && |r| == |q|
  {
    r := q;
    var i := start;
    while i > 0 && !Le(r[Parent(i)], r[i])
      invariant 0 <= i < |r| == |q| && OrderedButAbove(r, i)
      invariant multiset(r) == multiset(q)
    {
      SiftUpStep(r, i);
      SwapKeepsItems(r, Parent(i), i);
      r := Swap(r, Parent(i), i);
      i := Parent(i);
    }
  }

  /** All edges from `from` on are in order but those below `i`, and `i`'s
      children are already no smaller than its parent. */
  predicate OrderedButBelow(q: Queue, i: int, from: int) {
    && (forall k :: 0 < k < |q| && Parent(k) >= from && Parent(k) != i ==> Le(q[Parent(k)], q[k]))
    && (forall k :: 0 < k < |q| && Parent(k) == i && i > 0 && Parent(i) >= from ==> Le(q[Parent(i)], q[k]))
  }

  function Smaller(q: Queue, i: nat): int
    requires 2 * i + 1 < |q|
  {
    if 2 * i + 2 < |q| && !Le(q[2 * i + 1], q[2 * i + 2]) then 2 * i + 2 else 2 * i + 1
  }

  lemma {:induction false} SiftDownStep(q: Queue, i: nat, from: nat)
    requires from <= i && 2 * i + 1 < |q| && OrderedButBelow(q, i, from) && !Le(q[i], q[Smaller(q, i)])
    ensures OrderedButBelow(Swap(q, i, Smaller(q, i)), Smaller(q, i), from)
  {
    TotalOrder();
    var c, r := Smaller(q, i), Swap(q, i, Smaller(q, i));
    assert Parent(c) == i;
    forall k | 0 < k < |r| && Parent(k) >= from && Parent(k) != c ensures Le(r[Parent(k)], r[k]) {
      if Parent(k) == i { assert k == 2 * i + 1 || k == 2 * i + 2; }
    }
  }

  lemma {:induction false} SiftDownDone(q: Queue, i: nat, from: nat)
    requires from <= i && OrderedButBelow(q, i, from)
    requires 2 * i + 1 >= |q| || Le(q[i], q[Smaller(q, i)])
    ensures OrderedFrom(q, from)
  {
    TotalOrder();
    forall k | 0 < k < |q| && Parent(k) >= from ensures Le(q[Parent(k)], q[k]) {
      if Parent(k) == i { assert k == 2 * i + 1 || k == 2 * i + 2; }
    }
  }

  /** Move the item at `start` down until everything from `start` on is in order. */
  method SiftDown(q: Queue, start: nat) returns (r: Queue)
    requires OrderedFrom(q, start + 1)
    ensures OrderedFrom(r, start) && multiset(r) == multiset(q) && |r| == |q|
  {
    r := q;
    var i := start;
    while 2 * i + 1 < |r| && !Le(r[i], r[Smaller(r, i)])
      invariant start <= i && |r| == |q| && OrderedButBelow(r, i, start)
      invariant multiset(r) == multiset(q)
      decreases |r| - i
    {
      SiftDownStep(r, i, start);
      SwapKeepsItems(r, i, Smaller(r, i));
      var c := Smaller(r, i);
      r := Swap(r, i, c);
      i := c;
    }
    SiftDownDone(r, i, start);
  }

  // ---------- heapq's operations ----------

  method HeapPush(q: Queue, x: Item) returns (r: Queue)
    requires IsHeap(q)
    ensures IsHeap(r) && multiset(r) == multiset(q) + multiset{x}
  {
    var appended := q + [x];
    r := SiftUp(appended, |q|);
  }

  method HeapPop(q: Queue) returns (least: Item, r: Queue)
    requires IsHeap(q) && q != []
    ensures least == q[0] && forall x :: x in q ==> Le(least, x)
    ensures IsHeap(r) && multiset(q) == multiset(r) + multiset{least} && |r| == |q| - 1
  {
    least := q[0];
    forall x | x in q ensures Le(least, x) {
      var k :| 0 <= k < |q| && q[k] == x;
      RootIsLeast(q, k);
    }
    var last := q[|q| - 1];
    var rest := q[..|q| - 1];
    assert q == rest + [last];
    if rest == [] {
      return least, [];
    }
    var moved := rest[0 := last];
    r := SiftDown(moved, 0);
  }

  method Heapify(q: Queue) returns (r: Queue)
    ensures IsHeap(r) && multiset(r) == multiset(q)
  {
    r := q;
    var i := |q| / 2;
    while i > 0
      invariant 0 <= i <= |q| / 2 && |r| == |q|
      invariant OrderedFrom(r, i) && multiset(r) == multiset(q)
    {
      i := i - 1;
      r := SiftDown(r, i);
    }
  }

  /** Popping until empty gives the items in order: a sorted permutation. */
  method Drain(q: Queue) returns (out: seq<Item>)
    requires IsHeap(q)
    ensures multiset(out) == multiset(q)
    ensures forall i, j :: 0 <= i < j < |out| ==> GoesFirst(out[i], out[j])
  {
    LeIffGoesFirst();
    out := [];
    var rest := q;
    while rest != []
      invariant IsHeap(rest) && multiset(out) + multiset(rest) == multiset(q)
      invariant forall i, j :: 0 <= i < j < |out| ==> Le(out[i], out[j])
      invariant forall i, x :: 0 <= i < |out| && x in multiset(rest) ==> Le(out[i], x)
      decreases |rest|
    {
      var least, rest' := HeapPop(rest);
      forall x | x in multiset(rest') ensures x in multiset(rest) && Le(least, x) { }
      rest := rest';
      out := out + [least];
    }
  }
}

/** The per-model priority queues. */
module Scheduling {
  import opened RequestOrder
  import opened Heap

  function QueueOf(queues: map<string, Queue>, model: string): Queue {
    if model in queues then queues[model] else []
  }

  /** The list comprehension of remove_request. */
  function Without(q: Queue, id: string): Queue {
    if q == [] then []
    else
      var rest := Without(q[..|q| - 1], id);
      if q[|q| - 1].id == id then rest else rest + [q[|q| - 1]]
  }

  /** Exactly the entries with that id are gone. */
  lemma {:induction false} WithoutRemovesExactly(q: Queue, id: string, x: Item)
    ensures multiset(Without(q, id))[x] == if x.id == id then 0 else multiset(q)[x]
  {
    if q != [] {
      WithoutRemovesExactly(q[..|q| - 1], id, x);
      assert q == q[..|q| - 1] + [q[|q| - 1]];
    }
  }

  lemma {:induction false} RemovedCounts(q: Queue, id: string)
    ensures forall x :: multiset(Without(q, id))[x] == if x.id == id then 0 else multiset(q)[x]
    ensures forall x :: multiset(q)[x] == multiset(Without(q, id))[x] + (multiset(q) - multiset(Without(q, id)))[x]
  {
    forall x: Item ensures multiset(Without(q, id))[x] == if x.id == id then 0 else multiset(q)[x] {
      WithoutRemovesExactly(q, id, x);
    }
  }

  method FilterOut(queue: Queue, id: string) returns (filtered: Queue)
    ensures filtered == Without(queue, id)
  {
    filtered := [];
    for i := 0 to |queue|
      invariant filtered == Without(queue[..i], id)
    {
      assert queue[..i + 1][..i] == queue[..i];
      if queue[i].id != id {
        filtered := filtered + [queue[i]];
      }
    }
    assert queue[..|queue|] == queue;
  }

  /** One model's account: everything ever added, popped, removed, and lost with an
      expired cache entry. */
  datatype Account = Account(
    added: multiset<Item>, popped: multiset<Item>, removed: multiset<Item>, expired: multiset<Item>)
  {
    function Gone(): multiset<Item> { popped + removed + expired }
  }

  /** The queue is a heap that holds exactly what was added and is not gone. */
  ghost predicate Balanced(q: Queue, a: Account) {
    IsHeap(q) && multiset(q) + a.Gone() == a.added
  }

  const NOTHING := Account(multiset{}, multiset{}, multiset{}, multiset{})

  function AccountOf(book: map<string, Account>, model: string): Account {
    if model in book then book[model] else NOTHING
  }

  lemma {:induction false} PushBalances(q: Queue, q': Queue, x: Item, a: Account)
    requires Balanced(q, a) && IsHeap(q') && multiset(q') == multiset(q) + multiset{x}
    ensures Balanced(q', a.(added := a.added + multiset{x}))
  {
  }

  /** What leaves the queue goes to one column of the account. */
  lemma {:induction false} LeavingBalances(q: Queue, q': Queue, left: multiset<Item>, a: Account, a': Account)
    requires Balanced(q, a) && IsHeap(q') && multiset(q) == multiset(q') + left
    requires a'.added == a.added && a'.Gone() == a.Gone() + left
    ensures Balanced(q', a')
  {
    assert multiset(q') + left + a.Gone() == a.added;
  }

  lemma {:induction false} PopBalances(q: Queue, q': Queue, x: Item, a: Account)
    requires Balanced(q, a) && IsHeap(q') && multiset(q) == multiset(q') + multiset{x}
    ensures Balanced(q', a.(popped := a.popped + multiset{x}))
  {
    LeavingBalances(q, q', multiset{x}, a, a.(popped := a.popped + multiset{x}));
  }

  lemma {:induction false} ExpiryBalances(q: Queue, a: Account)
    requires Balanced(q, a)
    ensures Balanced([], a.(expired := a.expired + multiset(q)))
  {
    LeavingBalances(q, [], multiset(q), a, a.(expired := a.expired + multiset(q)));
  }

  function Dropped(q: Queue, id: string): multiset<Item> { multiset(q) - multiset(Without(q, id)) }

  lemma {:induction false} RemoveBalances(q: Queue, q': Queue, id: string, a: Account)
    requires Balanced(q, a) && IsHeap(q') && multiset(q') == multiset(Without(q, id))
    ensures Balanced(q', a.(removed := a.removed + Dropped(q, id)))
    ensures forall x :: multiset(q')[x] == if x.id == id then 0 else multiset(q)[x]
  {
    RemovedCounts(q, id);
    LeavingBalances(q, q', Dropped(q, id), a, a.(removed := a.removed + Dropped(q, id)));
  }

  datatype Answer = Granted | Refused | QueueInvalid

  /** How long a cache entry lives: saving an entry that is live does not renew it. */
  const TTL := 600.0

  /** The cached queues with the times their entries expire. */
  datatype Cache = Cache(queues: map<string, Queue>, deadlines: map<string, real>) {
    predicate IsExpired(model: string, now: real) {
      model in queues && model in deadlines && now > deadlines[model]
    }

    /** Reading removes an expired entry. */
    function Read(model: string, now: real): Cache {
      if IsExpired(model, now) then Cache(queues - {model}, deadlines - {model}) else this
    }

    function Live(model: string, now: real): Queue {
      QueueOf(Read(model, now).queues, model)
    }

    function Save(model: string, queue: Queue, now: real): Cache {
      Cache(queues[model := queue], if model in deadlines then deadlines else deadlines[model := now + TTL])
    }
  }

  /** The cache after one save per time, each of whatever queue the caller built. */
  function Saves(c: Cache, model: string, saves: seq<(Queue, real)>): Cache {
    if saves == [] then c
    else
      var (queue, now) := saves[|saves| - 1];
      Saves(c, model, saves[..|saves| - 1]).Read(model, now).Save(model, queue, now)
  }

  /** A save does not renew a live entry: however often a model's queue is saved
      within ten minutes of its first save, all of it is lost when they are over. */
  lemma {:induction false} SavesDoNotRenew(c: Cache, model: string, first: real, saves: seq<(Queue, real)>)
    requires c.queues.Keys == c.deadlines.Keys && model !in c.queues
    requires saves != [] && saves[0].1 == first
    requires forall i :: 0 <= i < |saves| ==> saves[i].1 <= first + 600.0
    ensures var c' := Saves(c, model, saves);
            && c'.queues.Keys == c'.deadlines.Keys && model in c'.queues
            && c'.deadlines[model] == first + 600.0
            && forall now :: c'.Live(model, now) == if now <= first + 600.0 then saves[|saves| - 1].0 else []
  {
    if |saves| == 1 {
      assert saves[..0] == [];
    } else {
      SavesDoNotRenew(c, model, first, saves[..|saves| - 1]);
    }
  }

  class Scheduler {
    var cache: Cache
    ghost var book: map<string, Account>

    /** Every queue is a heap holding exactly what was added and neither popped,
        removed nor expired since: nothing else is lost or invented in any run. */
    ghost predicate Valid()
      reads this
    {
      && cache.queues.Keys == cache.deadlines.Keys <= book.Keys
      && forall model :: model in book ==> Balanced(QueueOf(cache.queues, model), book[model])
    }

    /** The book after reading a model's queue: an expired one is written off. */
    ghost function BookAfterRead(model: string, now: real): map<string, Account>
      reads this
    {
      if cache.IsExpired(model, now) then
        var a := AccountOf(book, model);
        book[model := a.(expired := a.expired + multiset(cache.queues[model]))]
      else book
    }

    constructor ()
      ensures Valid() && cache == Cache(map[], map[]) && book == map[]
    {
      cache, book := Cache(map[], map[]), map[];
    }

    method GetQueue(model: string, now: real) returns (queue: Queue)
      requires Valid()
      modifies this
      ensures Valid()
      ensures cache == old(cache).Read(model, now) && book == old(BookAfterRead(model, now))
      ensures queue == old(cache).Live(model, now) == QueueOf(cache.queues, model)
    {
      if model !in cache.queues {
        return [];
      }
      if now > cache.deadlines[model] {
        ghost var a := book[model];
        ExpiryBalances(cache.queues[model], a);
        book := book[model := a.(expired := a.expired + multiset(cache.queues[model]))];
        cache := Cache(cache.queues - {model}, cache.deadlines - {model});
        return [];
      }
      return cache.queues[model];
    }

    method SaveQueue(model: string, queue: Queue, now: real, ghost account: Account)
      requires Valid() && Balanced(queue, account)
      modifies this
      ensures Valid() && cache == old(cache).Save(model, queue, now) && book == old(book)[model := account]
    {
      cache := cache.Save(model, queue, now);
      book := book[model := account];
    }

    method AddRequest(priority: int, id: string, model: string, now: real)
      requires Valid()
      modifies this
      ensures Valid()
      ensures model in cache.queues
      ensures cache == old(cache).Read(model, now).Save(model, cache.queues[model], now)
      ensures var before := old(BookAfterRead(model, now));
              var a := AccountOf(before, model);
              book == before[model := a.(added := a.added + multiset{Item(priority, id)})]
    {
      var queue := GetQueue(model, now);
      var pushed := HeapPush(queue, Item(priority, id));
      ghost var a := AccountOf(book, model);
      PushBalances(queue, pushed, Item(priority, id), a);
      SaveQueue(model, pushed, now, a.(added := a.added + multiset{Item(priority, id)}));
    }

    /** With no healthy deployment only the id of the least (priority, id) entry is
        granted, and exactly that entry is popped; with one, everything is granted
        and nothing popped.  An empty, missing or expired queue is an error. */
    method Poll(id: string, model: string, healthy: nat, now: real) returns (a: Answer)
      requires Valid()
      modifies this
      ensures Valid()
      ensures a == QueueInvalid <==> old(cache).Live(model, now) == []
      ensures healthy > 0 && a != QueueInvalid ==> a == Granted
      ensures !(a == Granted && healthy == 0) ==>
                cache == old(cache).Read(model, now) && book == old(BookAfterRead(model, now))
      ensures a != QueueInvalid && healthy == 0 ==>
                exists least :: IsLeast(old(cache).Live(model, now), least) && (a == Granted <==> least.id == id)
      ensures a == Granted && healthy == 0 ==>
                exists least ::
                  && IsLeast(old(cache).Live(model, now), least) && least.id == id
                  && model in cache.queues && cache == old(cache).Save(model, cache.queues[model], now)
                  && multiset(old(cache).Live(model, now)) == multiset(cache.queues[model]) + multiset{least}
                  && book == old(book)[model := old(book)[model].(popped := old(book)[model].popped + multiset{least})]
    {
      var queue := GetQueue(model, now);
      if queue == [] {
        return QueueInvalid;
      }
      if healthy > 0 {
        return Granted;
      }
      LeastAtRoot(queue);
      if queue[0].id != id {
        return Refused;
      }
      var least := PopQueue(model, queue, now);
      return Granted;
    }

    /** Pops the top of a queue just read. */
    method PopQueue(model: string, queue: Queue, now: real) returns (least: Item)
      requires Valid() && model in cache.queues && queue == cache.queues[model] != []
      modifies this
      ensures Valid() && least == queue[0]
      ensures model in cache.queues && cache == old(cache).Save(model, cache.queues[model], now)
      ensures multiset(queue) == multiset(cache.queues[model]) + multiset{least}
      ensures book == old(book)[model := old(book)[model].(popped := old(book)[model].popped + multiset{least})]
    {
      var rest;
      least, rest := HeapPop(queue);
      PopBalances(queue, rest, least, book[model]);
      SaveQueue(model, rest, now, book[model].(popped := book[model].popped + multiset{least}));
    }

    /** Deletes every entry with that id and restores the heap. */
    method RemoveRequest(id: string, model: string, now: real)
      requires Valid()
      modifies this
      ensures Valid()
      ensures model in cache.queues
      ensures cache == old(cache).Read(model, now).Save(model, cache.queues[model], now)
      ensures forall x :: multiset(cache.queues[model])[x] ==
                          if x.id == id then 0 else multiset(old(cache).Live(model, now))[x]
      ensures var before := old(BookAfterRead(model, now));
              var a := AccountOf(before, model);
              book == before[model := a.(removed := a.removed + Dropped(old(cache).Live(model, now), id))]
    {
      var queue := GetQueue(model, now);
      var filtered := FilterOut(queue, id);
      var heap := Heapify(filtered);
      ghost var a := AccountOf(book, model);
      RemoveBalances(queue, heap, id, a);
      SaveQueue(model, heap, now, a.(removed := a.removed + Dropped(queue, id)));
    }

    method Peek(id: string, model: string, now: real) returns (a: Answer)
      requires Valid()
      modifies this
      ensures Valid()
      ensures cache == old(cache).Read(model, now) && book == old(BookAfterRead(model, now))
      ensures a == QueueInvalid <==> old(cache).Live(model, now) == []
      ensures a == Granted <==> exists least :: IsLeast(old(cache).Live(model, now), least) && least.id == id
    {
      var queue := GetQueue(model, now);
      if queue == [] {
        return QueueInvalid;
      }
      LeastAtRoot(queue);
      LeastIsOne(queue);
      return if queue[0].id == id then Granted else Refused;
    }
  }

  /** The entry that comes first in the (priority, id) order. */
  ghost predicate IsLeast(q: Queue, least: Item) {
    least in q && forall x :: x in q ==> GoesFirst(least, x)
  }

  lemma {:induction false} LeastIsOne(q: Queue)
    ensures forall x, y :: IsLeast(q, x) && IsLeast(q, y) ==> x == y
  {
    LeIffGoesFirst();
    TotalOrder();
  }

  lemma {:induction false} LeastAtRoot(q: Queue)
    requires IsHeap(q) && q != []
    ensures IsLeast(q, q[0])
  {
    LeIffGoesFirst();
    forall x | x in q ensures Le(q[0], x) {
      var k :| 0 <= k < |q| && q[k] == x;
      RootIsLeast(q, k);
    }
  }
}
