/** SystemStatusOsObserver of gps/core/SystemStatusOsObserver.cpp: who wants which data
    item, kept both ways round, and what the framework is subscribed to on their behalf. */
module OsObserver {
  import opened SetMap
  import opened Wrappers

  /** An IDataItemObserver, known by its address. */
  datatype Client = Client(address: nat)

  datatype DataItemId = DataItemId(code: nat)

  /** `framework` is what the current subscription object has been told to subscribe to. */
  datatype Observer = Observer(
    clientItems: map<Client, set<DataItemId>>,
    itemClients: map<DataItemId, set<Client>>,
    hasSubscription: bool,
    framework: set<DataItemId>)

  const START := Observer(map[], map[], false, {})

  datatype Request =
    | Subscribe(items: set<DataItemId>, client: Client, requestData: bool)
    | UpdateSubscription(items: set<DataItemId>, client: Client)
    | Unsubscribe(items: set<DataItemId>, client: Client)
    | UnsubscribeAll(client: Client)
    | SetSubscriptionObj

  function DoSubscribe(o: Observer, items: set<DataItemId>, client: Client, requestData: bool): Observer {
    o.(clientItems := Added(o.clientItems, {client}, items),
       itemClients := Added(o.itemClients, items, {client}),
       framework := if o.hasSubscription && !requestData
                    then o.framework + NewKeys(o.itemClients, items, {client}) else o.framework)
  }

  function DoUpdate(o: Observer, items: set<DataItemId>, client: Client): Observer {
    var had := Get(o.clientItems, client);
    var trimmed := Trimmed(o.itemClients, had * items, {client});
    o.(clientItems := Replaced(o.clientItems, client, items),
       itemClients := Added(trimmed, items - had, {client}),
       framework := if o.hasSubscription
                    then o.framework + NewKeys(trimmed, items - had, {client})
                         - GoneKeys(o.itemClients, had * items, {client})
                    else o.framework)
  }

  function DoUnsubscribe(o: Observer, items: set<DataItemId>, client: Client): Observer {
    var unused := GoneVals(o.clientItems, {client}, items);
    o.(clientItems := Trimmed(o.clientItems, {client}, items),
       itemClients := Trimmed(o.itemClients, unused, {client}),
       framework := if o.hasSubscription then o.framework - GoneKeys(o.itemClients, unused, {client}) else o.framework)
  }

  function DoUnsubscribeAll(o: Observer, client: Client): Observer {
    var had := Get(o.clientItems, client);
    if had == {} then o
    else
      o.(clientItems := o.clientItems - {client},
         itemClients := Trimmed(o.itemClients, had, {client}),
         framework := if o.hasSubscription then o.framework - GoneKeys(o.itemClients, had, {client}) else o.framework)
  }

  /** One message of the observer's queue; requests for no items are refused at the door. */
  function Step(o: Observer, r: Request): Observer {
    match r
    case Subscribe(items, client, requestData) => if items == {} then o else DoSubscribe(o, items, client, requestData)
    case UpdateSubscription(items, client) => if items == {} then o else DoUpdate(o, items, client)
    case Unsubscribe(items, client) => if items == {} then o else DoUnsubscribe(o, items, client)
    case UnsubscribeAll(client) => DoUnsubscribeAll(o, client)
    case SetSubscriptionObj => o.(hasSubscription := true, framework := o.itemClients.Keys)
  }

  function Run(o: Observer, rs: seq<Request>): Observer
    decreases |rs|
  {
    if rs == [] then o else Run(Step(o, rs[0]), rs[1..])
  }

  // ---------- the two maps ----------

  ghost predicate Inverse(o: Observer) {
    forall c, d :: d in Get(o.clientItems, c) <==> c in Get(o.itemClients, d)
  }

  /** No entry of either map is empty. */
  ghost predicate Tidy(o: Observer) {
    && (forall c <- o.clientItems :: o.clientItems[c] != {})
    && (forall d <- o.itemClients :: o.itemClients[d] != {})
  }

  lemma TrimmedTidy<K, V>(m: map<K, set<V>>, keys: set<K>, vals: set<V>)
    requires forall k <- m :: m[k] != {}
    ensures var m' := Trimmed(m, keys, vals); forall k <- m' :: m'[k] != {}
  {
    var m' := Trimmed(m, keys, vals);
    forall k | k in m'
      ensures m'[k] != {}
    {
      if k in keys {
        var v :| v in m[k] && v !in vals;
        assert v in m'[k];
      }
    }
  }

  lemma TidyStep(o: Observer, r: Request)
    requires Tidy(o)
    ensures Tidy(Step(o, r))
  {
    match r
    case Subscribe(_, _, _) =>
    case UpdateSubscription(items, client) =>
      TrimmedTidy(o.itemClients, Get(o.clientItems, client) * items, {client});
    case Unsubscribe(items, client) =>
      TrimmedTidy(o.clientItems, {client}, items);
      TrimmedTidy(o.itemClients, GoneVals(o.clientItems, {client}, items), {client});
    case UnsubscribeAll(client) =>
      TrimmedTidy(o.itemClients, Get(o.clientItems, client), {client});
    case SetSubscriptionObj =>
  }

  lemma InverseSubscribe(o: Observer, items: set<DataItemId>, client: Client, requestData: bool)
    requires Inverse(o)
    ensures Inverse(DoSubscribe(o, items, client, requestData))
  {
    var o' := DoSubscribe(o, items, client, requestData);
    forall c, d
      ensures d in Get(o'.clientItems, c) <==> c in Get(o'.itemClients, d)
    {
      assert d in Get(o'.clientItems, c) <==> d in Get(o.clientItems, c) || (c == client && d in items);
      assert c in Get(o'.itemClients, d) <==> c in Get(o.itemClients, d) || (c == client && d in items);
    }
  }

  lemma InverseUnsubscribe(o: Observer, items: set<DataItemId>, client: Client)
    requires Inverse(o)
    ensures Inverse(DoUnsubscribe(o, items, client))
  {
    var o' := DoUnsubscribe(o, items, client);
    forall c, d
      ensures d in Get(o'.clientItems, c) <==> c in Get(o'.itemClients, d)
    {
      assert d in GoneVals(o.clientItems, {client}, items) <==> d in items && d in Get(o.clientItems, client) by {
        if d in Get(o.clientItems, client) { assert client in {client}; }
      }
      assert d in Get(o'.clientItems, c) <==> d in Get(o.clientItems, c) && !(c == client && d in items);
      assert c in Get(o'.itemClients, d)
        <==> c in Get(o.itemClients, d) && !(c == client && d in GoneVals(o.clientItems, {client}, items));
    }
  }

  lemma InverseUnsubscribeAll(o: Observer, client: Client)
    requires Inverse(o)
    ensures Inverse(DoUnsubscribeAll(o, client))
  {
    var o' := DoUnsubscribeAll(o, client);
    var had := Get(o.clientItems, client);
    if had != {} {
      forall c, d
        ensures d in Get(o'.clientItems, c) <==> c in Get(o'.itemClients, d)
      {
        assert d in Get(o'.clientItems, c) <==> d in Get(o.clientItems, c) && c != client;
        assert c in Get(o'.itemClients, d) <==> c in Get(o.itemClients, d) && !(c == client && d in had);
      }
    }
  }

  /** What a subscription adds: the items for the client, the client under the items, and, unless
      their data is only to be requested once, what nobody was listed under for the framework. */
  lemma SubscribeExactly(o: Observer, items: set<DataItemId>, client: Client, requestData: bool)
    ensures var o' := DoSubscribe(o, items, client, requestData);
            && (forall c :: Get(o'.clientItems, c) == Get(o.clientItems, c) + if c == client then items else {})
            && (forall c, d :: c in Get(o'.itemClients, d) <==>
                  c in Get(o.itemClients, d) || (c == client && d in items))
            && o'.hasSubscription == o.hasSubscription
            && o'.framework
               == o.framework + if o.hasSubscription && !requestData then items - o.itemClients.Keys else {}
  {
    var o' := DoSubscribe(o, items, client, requestData);
    forall c, d
      ensures c in Get(o'.itemClients, d) <==> c in Get(o.itemClients, d) || (c == client && d in items)
    {
    }
    KeysAdded(o.itemClients, items, client);
  }

  /** Somebody is listed under the item. */
  ghost predicate Wanted(o: Observer, d: DataItemId) {
    exists c :: c in Get(o.itemClients, d)
  }

  /** What leaving `items` takes away: those items from the client, the client from under those
      items, and from the framework exactly what nobody is listed under any more. */
  ghost predicate Leaves(o: Observer, o': Observer, items: set<DataItemId>, client: Client) {
    && (forall c :: Get(o'.clientItems, c) == Get(o.clientItems, c) - if c == client then items else {})
    && (forall c, d :: c in Get(o'.itemClients, d) <==> c in Get(o.itemClients, d) && !(c == client && d in items))
    && o'.hasSubscription == o.hasSubscription
    && (forall d :: d in o'.framework <==> d in o.framework && Wanted(o', d))
  }

  lemma UnsubscribeExactly(o: Observer, items: set<DataItemId>, client: Client)
    requires Inverse(o) && Tidy(o) && Within(o)
    ensures Leaves(o, DoUnsubscribe(o, items, client), items, client)
  {
    var o', unused := DoUnsubscribe(o, items, client), GoneVals(o.clientItems, {client}, items);
    forall d
      ensures d in unused <==> d in items && d in Get(o.clientItems, client)
    {
      assert client in {client};
    }
    forall c, d
      ensures c in Get(o'.itemClients, d) <==> c in Get(o.itemClients, d) && !(c == client && d in items)
    {
      assert c in Get(o'.itemClients, d) <==> c in Get(o.itemClients, d) && !(c == client && d in unused);
    }
    forall c
      ensures Get(o'.clientItems, c) == Get(o.clientItems, c) - if c == client then items else {}
    {
      assert forall d :: d in Get(o'.clientItems, c) <==> d in Get(o.clientItems, c) && !(c == client && d in items);
    }
    TrimmedFramework(o, unused, client, o');
  }

  lemma UnsubscribeAllExactly(o: Observer, client: Client)
    requires Inverse(o) && Tidy(o) && Within(o)
    ensures Leaves(o, DoUnsubscribeAll(o, client), Get(o.clientItems, client), client)
  {
    var o', had := DoUnsubscribeAll(o, client), Get(o.clientItems, client);
    forall d | d in o.framework
      ensures Wanted(o, d)
    {
      var c :| c in o.itemClients[d];
      assert c in Get(o.itemClients, d);
    }
    if had != {} {
      forall c, d
        ensures c in Get(o'.itemClients, d) <==> c in Get(o.itemClients, d) && !(c == client && d in had)
      {
      }
      TrimmedFramework(o, had, client, o');
    }
  }

  /** Trimming the client from `items` takes from the framework what is then not wanted. */
  lemma TrimmedFramework(o: Observer, items: set<DataItemId>, client: Client, o': Observer)
    requires Tidy(o) && Within(o) && o'.itemClients == Trimmed(o.itemClients, items, {client})
    requires o'.framework
          == if o.hasSubscription then o.framework - GoneKeys(o.itemClients, items, {client}) else o.framework
    ensures forall d :: d in o'.framework <==> d in o.framework && Wanted(o', d)
  {
    TrimmedTidy(o.itemClients, items, {client});
    forall d | d in o.framework
      ensures Wanted(o', d) <==> d !in GoneKeys(o.itemClients, items, {client})
    {
      if d in o'.itemClients {
        var c :| c in o'.itemClients[d];
        assert c in Get(o'.itemClients, d);
      }
    }
  }

  /** What an update leaves behind: the client's own entry holds the new items, but it is
      listed under those that are new to it and those it has given up. */
  lemma UpdateExactly(o: Observer, items: set<DataItemId>, client: Client)
    requires Inverse(o) && items != {}
    ensures var o', had := DoUpdate(o, items, client), Get(o.clientItems, client);
            && Get(o'.clientItems, client) == items
            && (forall d :: client in Get(o'.itemClients, d) <==> d in (items - had) + (had - items))
            && (forall c :: c != client ==> Get(o'.clientItems, c) == Get(o.clientItems, c))
            && (forall c, d :: c != client ==> (c in Get(o'.itemClients, d) <==> c in Get(o.itemClients, d)))
  {
    var o', had := DoUpdate(o, items, client), Get(o.clientItems, client);
    var trimmed := Trimmed(o.itemClients, had * items, {client});
    forall c, d
      ensures c in Get(o'.itemClients, d)
         <==> (c in Get(o.itemClients, d) && !(c == client && d in had * items)) || (c == client && d in items - had)
    {
      assert c in Get(trimmed, d) <==> c in Get(o.itemClients, d) && !(c == client && d in had * items);
    }
    forall d
      ensures client in Get(o'.itemClients, d) <==> d in (items - had) + (had - items)
    {
      assert d in had <==> client in Get(o.itemClients, d);
    }
  }

  /** An update keeps the maps inverse exactly when the client had no items before. */
  lemma UpdateKeepsInverseIff(o: Observer, items: set<DataItemId>, client: Client)
    requires Inverse(o) && items != {}
    ensures Inverse(DoUpdate(o, items, client)) <==> Get(o.clientItems, client) == {}
  {
    UpdateExactly(o, items, client);
    var o', had := DoUpdate(o, items, client), Get(o.clientItems, client);
    if had != {} {
      var d :| d in had;
      if d in items {
        assert d in Get(o'.clientItems, client) && client !in Get(o'.itemClients, d);
      } else {
        assert d !in Get(o'.clientItems, client) && client in Get(o'.itemClients, d);
      }
    } else {
      forall c, d
        ensures d in Get(o'.clientItems, c) <==> c in Get(o'.itemClients, d)
      {
        assert c == client || c != client;
      }
    }
  }

  /** A client that already has items replaces them. */
  predicate Replaces(o: Observer, r: Request) {
    r.UpdateSubscription? && r.items != {} && Get(o.clientItems, r.client) != {}
  }

  lemma InverseStepIff(o: Observer, r: Request)
    requires Inverse(o)
    ensures Inverse(Step(o, r)) <==> !Replaces(o, r)
  {
    match r
    case Subscribe(items, client, requestData) => if items != {} { InverseSubscribe(o, items, client, requestData); }
    case UpdateSubscription(items, client) => if items != {} { UpdateKeepsInverseIff(o, items, client); }
    case Unsubscribe(items, client) => if items != {} { InverseUnsubscribe(o, items, client); }
    case UnsubscribeAll(client) => InverseUnsubscribeAll(o, client);
    case SetSubscriptionObj =>
  }

  predicate NeverReplaces(o: Observer, rs: seq<Request>)
    decreases |rs|
  {
    rs != [] ==> !Replaces(o, rs[0]) && NeverReplaces(Step(o, rs[0]), rs[1..])
  }

  ghost predicate InverseThroughout(o: Observer, rs: seq<Request>)
    decreases |rs|
  {
    Inverse(o) && (rs != [] ==> InverseThroughout(Step(o, rs[0]), rs[1..]))
  }

  /** Under any interleaving the maps are inverse all along exactly when updates only come
      from clients without items. */
  lemma {:induction false} InverseRun(o: Observer, rs: seq<Request>)
    requires Inverse(o)
    ensures InverseThroughout(o, rs) <==> NeverReplaces(o, rs)
    ensures NeverReplaces(o, rs) ==> Inverse(Run(o, rs))
    decreases |rs|
  {
    if rs != [] {
      InverseStepIff(o, rs[0]);
      if !Replaces(o, rs[0]) {
        InverseRun(Step(o, rs[0]), rs[1..]);
      }
    }
  }

  // ---------- the framework's view ----------

  /** The framework is never subscribed to an item nobody is listed under. */
  ghost predicate Within(o: Observer) {
    o.framework <= o.itemClients.Keys && (!o.hasSubscription ==> o.framework == {})
  }

  lemma KeysAdded(m: map<DataItemId, set<Client>>, keys: set<DataItemId>, client: Client)
    ensures Added(m, keys, {client}).Keys == m.Keys + keys
    ensures NewKeys(m, keys, {client}) == keys - m.Keys
  {
  }

  lemma KeysTrimmed(m: map<DataItemId, set<Client>>, keys: set<DataItemId>, client: Client)
    ensures Trimmed(m, keys, {client}).Keys == m.Keys - GoneKeys(m, keys, {client})
    ensures GoneKeys(m, keys, {client}) <= keys * m.Keys
  {
  }

  /** Subscribing by `requestData` to an item nobody is listed under yet. */
  predicate OnlyRequests(o: Observer, r: Request) {
    r.Subscribe? && r.requestData && !(r.items <= o.itemClients.Keys)
  }

  /** The framework's subscriptions follow the item map whether or not the maps are
      inverse; they fall behind only by `requestData` for an item that is not listed. */
  lemma FrameworkStep(o: Observer, r: Request)
    requires Within(o)
    ensures Within(Step(o, r))
    ensures r == SetSubscriptionObj ==> Step(o, r).framework == Step(o, r).itemClients.Keys
    ensures o.hasSubscription && o.framework == o.itemClients.Keys ==>
              (Step(o, r).framework == Step(o, r).itemClients.Keys <==> !OnlyRequests(o, r))
  {
    match r
    case Subscribe(items, client, requestData) =>
      KeysAdded(o.itemClients, items, client);
      if !(items <= o.itemClients.Keys) {
        var d :| d in items && d !in o.itemClients.Keys;
        assert d in o.itemClients.Keys + items;
      }
    case UpdateSubscription(items, client) =>
      var had := Get(o.clientItems, client);
      KeysTrimmed(o.itemClients, had * items, client);
      KeysAdded(Trimmed(o.itemClients, had * items, {client}), items - had, client);
    case Unsubscribe(items, client) =>
      KeysTrimmed(o.itemClients, GoneVals(o.clientItems, {client}, items), client);
    case UnsubscribeAll(client) =>
      KeysTrimmed(o.itemClients, Get(o.clientItems, client), client);
    case SetSubscriptionObj =>
  }

  predicate NeverOnlyRequests(o: Observer, rs: seq<Request>)
    decreases |rs|
  {
    rs != [] ==> !OnlyRequests(o, rs[0]) && NeverOnlyRequests(Step(o, rs[0]), rs[1..])
  }

  ghost predicate FrameworkThroughout(o: Observer, rs: seq<Request>)
    decreases |rs|
  {
    o.framework == o.itemClients.Keys && (rs != [] ==> FrameworkThroughout(Step(o, rs[0]), rs[1..]))
  }

  /** Over any run the framework stays within the listed items; and once it has just the listed
      ones, it has just those all along exactly if no unlisted item comes by `requestData`. */
  lemma {:induction false} FrameworkRun(o: Observer, rs: seq<Request>)
    requires Within(o)
    ensures Within(Run(o, rs))
    ensures o.hasSubscription && o.framework == o.itemClients.Keys ==>
              (FrameworkThroughout(o, rs) <==> NeverOnlyRequests(o, rs))
    decreases |rs|
  {
    if rs != [] {
      FrameworkStep(o, rs[0]);
      FrameworkRun(Step(o, rs[0]), rs[1..]);
    }
  }

  /** From an empty observer: every run keeps the framework within the item map and no entry
      empty, and the maps inverse as long as updates only come from clients without items. */
  lemma FromTheStart(rs: seq<Request>)
    ensures Within(Run(START, rs)) && Tidy(Run(START, rs))
    ensures InverseThroughout(START, rs) <==> NeverReplaces(START, rs)
  {
    FrameworkRun(START, rs);
    TidyRun(START, rs);
    InverseRun(START, rs);
  }

  lemma {:induction false} TidyRun(o: Observer, rs: seq<Request>)
    requires Tidy(o)
    ensures Tidy(Run(o, rs))
    decreases |rs|
  {
    if rs != [] {
      TidyStep(o, rs[0]);
      TidyRun(Step(o, rs[0]), rs[1..]);
    }
  }

  /** A client that widens its subscription from one item to two is no longer listed under
      the first, which it still wants. */
  lemma UpdateLosesClient(c: Client, kept: DataItemId, extra: DataItemId)
    requires kept != extra
    ensures var o := DoUpdate(DoSubscribe(START, {kept}, c, false), {kept, extra}, c);
            kept in Get(o.clientItems, c) && c !in Get(o.itemClients, kept)
  {
    var o := DoSubscribe(START, {kept}, c, false);
    InverseSubscribe(START, {kept}, c, false);
    assert kept in Get(o.clientItems, c);
    UpdateExactly(o, {kept, extra}, c);
  }

  // ---------- notifications ----------

  /** A received data item; `recorded` is whether SystemStatus handles it, `creatable` whether
      the factory can make a cache entry for it. */
  datatype DataItem = DataItem(id: DataItemId, value: int, recorded: bool, creatable: bool)

  /** One call of a client's `notify`. */
  datatype Call = Call(client: Client, items: map<DataItemId, int>)

  type Cache = map<DataItemId, int>

  predicate Updates(cache: Cache, d: DataItem) {
    d.recorded && if d.id in cache then cache[d.id] != d.value else d.creatable
  }

  function Stored(cache: Cache, d: DataItem): Cache {
    if d.recorded && (d.id in cache || d.creatable) then cache[d.id := d.value] else cache
  }

  function CacheAfter(cache: Cache, batch: seq<DataItem>): Cache
    decreases |batch|
  {
    if batch == [] then cache else CacheAfter(Stored(cache, batch[0]), batch[1..])
  }

  /** The items whose cached value a batch has changed at some point. */
  function Changed(cache: Cache, batch: seq<DataItem>): set<DataItemId>
    decreases |batch|
  {
    if batch == [] then {}
    else (if Updates(cache, batch[0]) then {batch[0].id} else {}) + Changed(Stored(cache, batch[0]), batch[1..])
  }

  function Restrict(cache: Cache, items: set<DataItemId>): map<DataItemId, int> {
    map d | d in items && d in cache :: cache[d]
  }

  /** What the cache has for an item. */
  function Cached(cache: Cache, id: DataItemId): Option<int> {
    if id in cache then Some(cache[id]) else None
  }

  /** The value of the last recorded item of this id, or else what the cache had before. */
  function ValueAfter(cache: Cache, batch: seq<DataItem>, id: DataItemId): Option<int> {
    if batch == [] then Cached(cache, id)
    else
      var n := |batch| - 1;
      if batch[n].id == id && batch[n].recorded then Some(batch[n].value) else ValueAfter(cache, batch[..n], id)
  }

  /** The item is cached, or entries can be made for it. */
  predicate Makeable(cache: Cache, batch: seq<DataItem>, id: DataItemId) {
    id in cache || forall d <- batch :: d.id == id ==> d.creatable
  }

  lemma {:induction false} CacheSnoc(cache: Cache, batch: seq<DataItem>, d: DataItem)
    ensures CacheAfter(cache, batch + [d]) == Stored(CacheAfter(cache, batch), d)
    ensures Changed(cache, batch + [d])
         == Changed(cache, batch) + if Updates(CacheAfter(cache, batch), d) then {d.id} else {}
    decreases |batch|
  {
    if batch == [] {
      assert batch + [d] == [d] && [d][1..] == [];
    } else {
      assert (batch + [d])[1..] == batch[1..] + [d];
      CacheSnoc(Stored(cache, batch[0]), batch[1..], d);
    }
  }

  /** After a batch the cache has the value of the last recorded item of each id, whether that
      was cached before or not, and what it had where there is none. */
  lemma {:induction false} CacheHasLast(cache: Cache, batch: seq<DataItem>, id: DataItemId)
    requires Makeable(cache, batch, id)
    ensures Cached(CacheAfter(cache, batch), id) == ValueAfter(cache, batch, id)
  {
    if batch != [] {
      var n := |batch| - 1;
      assert batch[..n] + [batch[n]] == batch && batch[n] in batch;
      CacheHasLast(cache, batch[..n], id);
      CacheSnoc(cache, batch[..n], batch[n]);
      CacheGrows(cache, batch[..n]);
    }
  }

  /** An item counts as changed exactly if some recorded item of its id in the batch differs
      from the value before it. */
  lemma {:induction false} ChangedIff(cache: Cache, batch: seq<DataItem>, id: DataItemId)
    requires Makeable(cache, batch, id)
    ensures id in Changed(cache, batch)
       <==> exists i | 0 <= i < |batch| :: Differs(cache, batch, id, i)
  {
    if batch != [] {
      var n := |batch| - 1;
      assert batch[..n] + [batch[n]] == batch && batch[n] in batch;
      ChangedIff(cache, batch[..n], id);
      CacheHasLast(cache, batch[..n], id);
      CacheSnoc(cache, batch[..n], batch[n]);
      CacheGrows(cache, batch[..n]);
      assert forall i | 0 <= i < n :: batch[..n][..i] == batch[..i];
      assert forall i | 0 <= i < n :: Differs(cache, batch, id, i) <==> Differs(cache, batch[..n], id, i);
      assert Updates(CacheAfter(cache, batch[..n]), batch[n]) && batch[n].id == id <==> Differs(cache, batch, id, n);
    }
  }

  predicate Differs(cache: Cache, batch: seq<DataItem>, id: DataItemId, i: nat)
    requires i < |batch|
  {
    batch[i].id == id && batch[i].recorded && ValueAfter(cache, batch[..i], id) != Some(batch[i].value)
  }

  /** Nothing is sent when none of the items is cached. */
  function SendCached(cache: Cache, items: set<DataItemId>, client: Client): seq<Call> {
    var found := Restrict(cache, items);
    if found == map[] then [] else [Call(client, found)]
  }

  /** What is sent is one call with every item that is cached, its value, and nothing else. */
  lemma SendsWhatIsCached(cache: Cache, items: set<DataItemId>, client: Client)
    ensures var calls := SendCached(cache, items, client);
            if items !! cache.Keys then calls == []
            else
              && |calls| == 1 && calls[0].client == client && calls[0].items.Keys == items * cache.Keys
              && forall d <- calls[0].items :: calls[0].items[d] == cache[d]
  {
    var found := Restrict(cache, items);
    assert found.Keys == items * cache.Keys;
    if d :| d in items && d in cache.Keys {
      assert d in found && found != map[];
    }
  }

  /** Whoever is listed under one of the items. */
  function Recipients(o: Observer, items: set<DataItemId>): set<Client> {
    set d, c | d in items && c in Get(o.itemClients, d) :: c
  }

  lemma RecipientsOfOneMore(o: Observer, items: set<DataItemId>, d: DataItemId)
    ensures Recipients(o, items + {d}) == Recipients(o, items) + Get(o.itemClients, d)
  {
    forall c | c in Recipients(o, items) + Get(o.itemClients, d)
      ensures c in Recipients(o, items + {d})
    {
      if c in Recipients(o, items) {
        var d' :| d' in items && c in Get(o.itemClients, d');
        assert d' in items + {d};
      } else {
        assert d in items + {d};
      }
    }
  }

  /** One round of notifications about `sent` to `clients`: each of them that wants any of
      it and has it cached is called once, with just that, and nobody else is called. */
  ghost predicate Round(calls: seq<Call>, o: Observer, clients: set<Client>, cache: Cache, sent: set<DataItemId>) {
    && (forall i, j | 0 <= i < j < |calls| :: calls[i].client != calls[j].client)
    && (forall call <- calls :: call.client in clients && call.items != map[]
          && call.items == Restrict(cache, Get(o.clientItems, call.client) * sent))
    && (forall c <- clients :: Restrict(cache, Get(o.clientItems, c) * sent) != map[] ==>
          exists call <- calls :: call.client == c)
  }

  lemma {:induction false} CacheGrows(cache: Cache, batch: seq<DataItem>)
    ensures cache.Keys <= CacheAfter(cache, batch).Keys
    ensures Changed(cache, batch) <= CacheAfter(cache, batch).Keys
    decreases |batch|
  {
    if batch != [] {
      CacheGrows(Stored(cache, batch[0]), batch[1..]);
    }
  }

  /** The values are those of the last recorded items. */
  ghost predicate Carries(items: map<DataItemId, int>, cache: Cache, batch: seq<DataItem>) {
    && (forall d <- items :: d in CacheAfter(cache, batch) && items[d] == CacheAfter(cache, batch)[d])
    && (forall d <- items :: Makeable(cache, batch, d) ==> ValueAfter(cache, batch, d) == Some(items[d]))
  }

  /** Whoever is called about a batch is given exactly the last values of the changed items it
      has subscribed to, and a client is called exactly when it has any, if and only if it has
      none or is listed under one of the changed items. */
  lemma NotifyReachesIff(o: Observer, cache: Cache, batch: seq<DataItem>, calls: seq<Call>, c: Client)
    requires var sent := Changed(cache, batch);
             Round(calls, o, Recipients(o, sent), CacheAfter(cache, batch), sent)
    ensures var sent := Changed(cache, batch);
            var wanted := Get(o.clientItems, c) * sent;
            && ((wanted != {} <==> exists call <- calls :: call.client == c)
                <==> wanted == {} || exists d <- sent :: c in Get(o.itemClients, d))
            && forall call <- calls :: call.client == c ==>
                 call.items.Keys == wanted && Carries(call.items, cache, batch)
  {
    var sent, after := Changed(cache, batch), CacheAfter(cache, batch);
    var wanted := Get(o.clientItems, c) * sent;
    CacheGrows(cache, batch);
    assert Restrict(after, wanted).Keys == wanted;
    if d :| d in sent && c in Get(o.itemClients, d) {
      assert c in Recipients(o, sent);
    }
    forall call | call in calls && call.client == c
      ensures Carries(call.items, cache, batch)
    {
      forall d | d in call.items && Makeable(cache, batch, d)
        ensures ValueAfter(cache, batch, d) == Some(call.items[d])
      {
        CacheHasLast(cache, batch, d);
      }
    }
  }

  /** With inverse maps a batch reaches every client exactly once with exactly the last
      values of the changed items it has subscribed to, and no client without any. */
  lemma NotifyReachesExactly(o: Observer, cache: Cache, batch: seq<DataItem>, calls: seq<Call>, c: Client)
    requires Inverse(o)
    requires var sent := Changed(cache, batch);
             Round(calls, o, Recipients(o, sent), CacheAfter(cache, batch), sent)
    ensures var wanted := Get(o.clientItems, c) * Changed(cache, batch);
            && (wanted != {} <==> exists call <- calls :: call.client == c)
            && forall call <- calls :: call.client == c ==>
                 call.items.Keys == wanted && Carries(call.items, cache, batch)
  {
    var wanted := Get(o.clientItems, c) * Changed(cache, batch);
    NotifyReachesIff(o, cache, batch, calls, c);
    if wanted != {} {
      var d :| d in wanted;
      assert d in Changed(cache, batch) && c in Get(o.itemClients, d);
    }
  }

  /** The client that has widened its subscription misses a change of the item it kept. */
  lemma UpdateMissesNotify(c: Client, kept: DataItemId, extra: DataItemId, value: int, calls: seq<Call>)
    requires kept != extra
    requires var o := DoUpdate(DoSubscribe(START, {kept}, c, false), {kept, extra}, c);
             var batch := [DataItem(kept, value, true, true)];
             Round(calls, o, Recipients(o, Changed(map[], batch)), CacheAfter(map[], batch), Changed(map[], batch))
    ensures var o := DoUpdate(DoSubscribe(START, {kept}, c, false), {kept, extra}, c);
            kept in Get(o.clientItems, c) && forall call <- calls :: call.client != c
  {
    var o := DoUpdate(DoSubscribe(START, {kept}, c, false), {kept, extra}, c);
    var batch := [DataItem(kept, value, true, true)];
    UpdateLosesClient(c, kept, extra);
    OneItemChanged(DataItem(kept, value, true, true));
    NotifyReachesIff(o, map[], batch, calls, c);
    assert kept in Get(o.clientItems, c) * Changed(map[], batch);
  }

  lemma OneItemChanged(d: DataItem)
    requires d.recorded && d.creatable
    ensures Changed(map[], [d]) == {d.id}
  {
    assert [d][1..] == [];
  }

  // ---------- the object ----------

  class SystemStatusOsObserver {
    const mClientToDataItems: LocUnorderedSetMap<Client, DataItemId>
    const mDataItemToClients: LocUnorderedSetMap<DataItemId, Client>
    var mDataItemCache: Cache
    var hasSubscriptionObj: bool
    /** What the subscription object has been told to subscribe to. */
    var framework: set<DataItemId>
    /** What the subscription object has been asked to send at once, call by call. */
    var requested: seq<set<DataItemId>>
    /** Calls made to the clients' `notify`. */
    var calls: seq<Call>

    constructor ()
      ensures Valid() && View() == START && mDataItemCache == map[] && calls == [] && requested == []
      ensures fresh(mClientToDataItems) && fresh(mDataItemToClients)
    {
      mClientToDataItems := new LocUnorderedSetMap<Client, DataItemId>();
      mDataItemToClients := new LocUnorderedSetMap<DataItemId, Client>();
      mDataItemCache, hasSubscriptionObj, framework, requested, calls := map[], false, {}, [], [];
    }

    ghost predicate Valid() {
      mClientToDataItems as object != mDataItemToClients as object
    }

    function View(): Observer
      reads this, mClientToDataItems, mDataItemToClients
    {
      Observer(mClientToDataItems.mMap, mDataItemToClients.mMap, hasSubscriptionObj, framework)
    }

    method SetSubscriptionObject()
      modifies this`hasSubscriptionObj, this`framework, this`requested
      ensures View() == Step(old(View()), SetSubscriptionObj)
      ensures requested == old(requested) + if framework == {} then [] else [framework]
    {
      hasSubscriptionObj, framework := true, {};
      if mDataItemToClients.mMap != map[] {
        framework := framework + mDataItemToClients.mMap.Keys;
        requested := requested + [mDataItemToClients.mMap.Keys];
      }
    }

    method HandleSubscribe(items: set<DataItemId>, client: Client, toRequestData: bool)
      requires Valid()
      modifies this, mClientToDataItems, mDataItemToClients
      ensures View() == Step(old(View()), Subscribe(items, client, toRequestData))
      ensures calls == old(calls) + SendCached(mDataItemCache, items, client) && mDataItemCache == old(mDataItemCache)
      ensures requested == old(requested) + if items != {} && hasSubscriptionObj && toRequestData then [items] else []
    {
      if items == {} {
        return;
      }
      var toSubscribe := mDataItemToClients.Add(items, {client});
      var _ := mClientToDataItems.AddEntry(client, items);
      SendCachedDataItems(items, client);
      if hasSubscriptionObj {
        if toRequestData {
          requested := requested + [items];
        } else {
          framework := framework + toSubscribe;
        }
      }
    }

    method HandleUpdateSubscription(items: set<DataItemId>, client: Client)
      requires Valid()
      modifies this, mClientToDataItems, mDataItemToClients
      ensures View() == Step(old(View()), UpdateSubscription(items, client))
      ensures calls == old(calls) + SendCached(mDataItemCache, items - Get(old(View()).clientItems, client), client)
      ensures mDataItemCache == old(mDataItemCache) && requested == old(requested)
    {
      if items == {} {
        return;
      }
      var gone, freshItems := mClientToDataItems.Update(client, items);
      var toUnsubscribe, _ := mDataItemToClients.TrimOrRemove(gone, {client});
      var toSubscribe := mDataItemToClients.Add(freshItems, {client});
      SendCachedDataItems(freshItems, client);
      if hasSubscriptionObj {
        framework := framework + toSubscribe;
        framework := framework - toUnsubscribe;
      }
    }

    method HandleUnsubscribe(items: set<DataItemId>, client: Client)
      requires Valid()
      modifies this, mClientToDataItems, mDataItemToClients
      ensures View() == Step(old(View()), Unsubscribe(items, client))
      ensures calls == old(calls) && mDataItemCache == old(mDataItemCache) && requested == old(requested)
    {
      if items == {} {
        return;
      }
      var _, unused := mClientToDataItems.TrimOrRemove({client}, items);
      var toUnsubscribe, _ := mDataItemToClients.TrimOrRemove(unused, {client});
      if hasSubscriptionObj {
        framework := framework - toUnsubscribe;
      }
    }

    method HandleUnsubscribeAll(client: Client)
      requires Valid()
      modifies this, mClientToDataItems, mDataItemToClients
      ensures View() == Step(old(View()), UnsubscribeAll(client))
      ensures calls == old(calls) && mDataItemCache == old(mDataItemCache) && requested == old(requested)
    {
      var diByClient := mClientToDataItems.GetValSet(client);
      if diByClient != {} {
        var _ := mClientToDataItems.Remove(client);
        var toUnsubscribe, _ := mDataItemToClients.TrimOrRemove(diByClient, {client});
        if hasSubscriptionObj {
          framework := framework - toUnsubscribe;
        }
      }
    }

    method SendCachedDataItems(items: set<DataItemId>, to: Client)
      modifies this`calls
      ensures calls == old(calls) + SendCached(mDataItemCache, items, to)
    {
      var dataItems: map<DataItemId, int> := map[];
      var todo := items;
      while todo != {}
        invariant todo <= items && dataItems == Restrict(mDataItemCache, items - todo)
        decreases todo
      {
        var each :| each in todo;
        assert items - (todo - {each}) == (items - todo) + {each};
        if each in mDataItemCache {
          dataItems := dataItems[each := mDataItemCache[each]];
        }
        todo := todo - {each};
      }
      assert items - todo == items;
      if dataItems != map[] {
        calls := calls + [Call(to, dataItems)];
      }
    }

    method UpdateCache(d: DataItem) returns (updated: bool)
      modifies this`mDataItemCache
      ensures updated == Updates(old(mDataItemCache), d) && mDataItemCache == Stored(old(mDataItemCache), d)
    {
      updated := false;
      if d.recorded {
        if d.id !in mDataItemCache {
          if d.creatable {
            mDataItemCache := mDataItemCache[d.id := d.value];
            updated := true;
          }
        } else {
          updated := mDataItemCache[d.id] != d.value;
          mDataItemCache := mDataItemCache[d.id := d.value];
        }
      }
    }

    method HandleNotify(batch: seq<DataItem>)
      requires Valid()
      modifies this`mDataItemCache, this`calls
      ensures mDataItemCache == CacheAfter(old(mDataItemCache), batch)
      ensures old(calls) <= calls
      ensures var sent := Changed(old(mDataItemCache), batch);
              Round(calls[|old(calls)|..], View(), Recipients(View(), sent), mDataItemCache, sent)
    {
      var sent: set<DataItemId> := {};
      for i := 0 to |batch|
        invariant CacheAfter(old(mDataItemCache), batch) == CacheAfter(mDataItemCache, batch[i..])
        invariant Changed(old(mDataItemCache), batch) == sent + Changed(mDataItemCache, batch[i..])
        invariant calls == old(calls)
      {
        assert batch[i..][0] == batch[i] && batch[i..][1..] == batch[i + 1..];
        var updated := UpdateCache(batch[i]);
        if updated {
          sent := sent + {batch[i].id};
        }
      }
      var clientSet := CollectClients(sent);
      NotifyClients(clientSet, sent);
    }

    /** One round of calls to the clients, in no particular order. */
    method NotifyClients(clientSet: set<Client>, sent: set<DataItemId>)
      requires Valid()
      modifies this`calls
      ensures old(calls) <= calls
      ensures Round(calls[|old(calls)|..], View(), clientSet, mDataItemCache, sent)
    {
      ghost var round: seq<Call> := [];
      var todo := clientSet;
      while todo != {}
        invariant todo <= clientSet && calls == old(calls) + round
        invariant Round(round, View(), clientSet - todo, mDataItemCache, sent)
        decreases todo
      {
        var client :| client in todo;
        var items := mClientToDataItems.GetValSet(client);
        SendCachedDataItems(items * sent, client);
        RoundGrows(round, View(), clientSet - todo, mDataItemCache, sent, client);
        round := round + SendCached(mDataItemCache, items * sent, client);
        assert clientSet - (todo - {client}) == (clientSet - todo) + {client};
        todo := todo - {client};
      }
      assert clientSet - todo == clientSet && calls[|old(calls)|..] == round;
    }

    method CollectClients(sent: set<DataItemId>) returns (clientSet: set<Client>)
      ensures clientSet == Recipients(View(), sent)
    {
      clientSet := {};
      var todo := sent;
      while todo != {}
        invariant todo <= sent && clientSet == Recipients(View(), sent - todo)
        decreases todo
      {
        var each :| each in todo;
        assert sent - (todo - {each}) == (sent - todo) + {each};
        RecipientsOfOneMore(View(), sent - todo, each);
        if each in mDataItemToClients.mMap {
          clientSet := clientSet + mDataItemToClients.mMap[each];
        }
        todo := todo - {each};
      }
      assert sent - todo == sent;
    }
  }

  lemma RoundGrows(calls: seq<Call>, o: Observer, clients: set<Client>, cache: Cache, sent: set<DataItemId>, c: Client)
    requires Round(calls, o, clients, cache, sent) && c !in clients
    ensures Round(calls + SendCached(cache, Get(o.clientItems, c) * sent, c), o, clients + {c}, cache, sent)
  {
    var more := calls + SendCached(cache, Get(o.clientItems, c) * sent, c);
    forall x | x in clients + {c} && Restrict(cache, Get(o.clientItems, x) * sent) != map[]
      ensures exists call <- more :: call.client == x
    {
      if x == c {
        assert more[|calls|] in more;
      } else {
        var call :| call in calls && call.client == x;
        assert call in more;
      }
    }
  }
}
