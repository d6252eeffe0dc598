// Service discovery: the balancer hears of instances through a log of Insert
// and Remove events, while a channel cache and the instance table follow the
// backend's snapshots.
module Discovery {
  import opened Wrappers

  datatype Metadata = Metadata(
    region: Option<string>, zone: Option<string>, environment: Option<string>, custom: map<string, string>)

  datatype Instance = Instance(
    serviceType: string, instanceId: string, address: string, namespace: Option<string>, version: Option<string>,
    tags: map<string, string>, metadata: Metadata, healthy: bool, weight: u32)

  function GrpcUri(i: Instance): string { "http://" + i.address }

  // A lazily connected channel; `serial` tells channels to one address apart.
  datatype Channel = Channel(serial: nat, uri: string)

  datatype Change = Insert(key: string, channel: Channel) | Remove(key: string)

  // What a listener holds after hearing the whole log.
  function Replay(log: seq<Change>): map<string, Channel> {
    if log == [] then map[]
    else
      var before := Replay(log[..|log| - 1]);
      match log[|log| - 1]
      case Insert(key, channel) => before[key := channel]
      case Remove(key) => before - {key}
  }

  // The events of one instance id: insertions by address, and removals.
  datatype Shape = Ins(uri: string) | Rem

  function ShapeOf(c: Change): Shape {
    if c.Insert? then Ins(c.channel.uri) else Rem
  }

  function Shapes(log: seq<Change>, id: string): seq<Shape> {
    if log == [] then []
    else
      var last := log[|log| - 1];
      Shapes(log[..|log| - 1], id) + (if last.key == id then [ShapeOf(last)] else [])
  }

  lemma LogAppend(log: seq<Change>, c: Change)
    ensures Replay(log + [c]) == if c.Insert? then Replay(log)[c.key := c.channel] else Replay(log) - {c.key}
    ensures forall id :: Shapes(log + [c], id) == Shapes(log, id) + (if c.key == id then [ShapeOf(c)] else [])
  {
    assert (log + [c])[..|log|] == log;
  }

  // Insertions and removals take turns, starting with an insertion.
  ghost predicate Alternating(shapes: seq<Shape>) {
    forall i | 0 <= i < |shapes| :: shapes[i].Ins? <==> i % 2 == 0
  }

  function Lookup<V>(m: map<string, V>, k: string): Option<V> {
    if k in m then Some(m[k]) else None
  }

  // The snapshot as a table: of instances with one id, the last counts.
  function Table(list: seq<Instance>): map<string, Instance> {
    if list == [] then map[]
    else Table(list[..|list| - 1])[list[|list| - 1].instanceId := list[|list| - 1]]
  }

  // The entry of an id is its last one in the snapshot.
  lemma {:induction false} TableLast(list: seq<Instance>, i: nat)
    requires i < |list| && forall j | i < j < |list| :: list[j].instanceId != list[i].instanceId
    ensures Lookup(Table(list), list[i].instanceId) == Some(list[i])
  {
    if i < |list| - 1 { TableLast(list[..|list| - 1], i); }
  }

  // What one refresh must announce about an id, given its old and new entry.
  function Announced(valid: string -> bool, was: Option<Instance>, now: Option<Instance>): seq<Shape> {
    if was == now then []
    else (if was.Some? then [Rem] else [])
         + (if now.Some? && valid(GrpcUri(now.value)) then [Ins(GrpcUri(now.value))] else [])
  }

  // All that concerns one id: its table entry, its events, its channel.
  datatype View = View(entry: Option<Instance>, shapes: seq<Shape>, channel: Option<Channel>)

  // The id's entry agrees with its channel: there is one exactly when the
  // instance is reachable, and it leads to the instance's address.
  ghost predicate ViewAgrees(valid: string -> bool, v: View) {
    && (v.channel.Some? <==> v.entry.Some? && valid(GrpcUri(v.entry.value)))
    && (v.channel.Some? ==> v.channel.value.uri == "http://" + v.entry.value.address)
  }

  // URIs tell addresses apart.
  lemma UriTellsAddress(i: Instance, j: Instance)
    ensures GrpcUri(i) == GrpcUri(j) <==> i.address == j.address
  {
    assert GrpcUri(i)[7..] == i.address && GrpcUri(j)[7..] == j.address;
  }

  // Where cache and table agree, a channel leads to the address of its own
  // instance: to one place with another exactly if the instances are at one.
  lemma AgreeingChannels(d: ServiceDiscover, id: string, id': string)
    requires d.Agrees(id) && d.Agrees(id') && id in d.channelCache && id' in d.channelCache
    ensures id in d.instances && d.channelCache[id].uri == "http://" + d.instances[id].address
    ensures id' in d.instances
            && (d.channelCache[id].uri == d.channelCache[id'].uri
                <==> d.instances[id].address == d.instances[id'].address)
  {
    assert d.ViewOf(id).channel == Some(d.channelCache[id]) && d.ViewOf(id').channel == Some(d.channelCache[id']);
    var uri, uri' := d.channelCache[id].uri, d.channelCache[id'].uri;
    assert uri[7..] == d.instances[id].address && uri'[7..] == d.instances[id'].address;
  }

  // The id's entry became `now`, and exactly that was announced; an entry that
  // stays keeps its channel, and one that changes agrees with its new one.
  ghost predicate Moved(valid: string -> bool, v: View, now: Option<Instance>, v': View) {
    && v'.entry == now
    && v'.shapes == v.shapes + Announced(valid, v.entry, now)
    && (if v.entry == now then v'.channel == v.channel else ViewAgrees(valid, v'))
  }

  // An instance that has moved is taken away and announced at its new address.
  lemma MoveIsAnnounced(valid: string -> bool, v: View, was: Instance, now: Instance, v': View)
    requires Moved(valid, v, Some(now), v') && v.entry == Some(was) && was.address != now.address
    requires valid("http://" + now.address)
    ensures v'.shapes == v.shapes + [Rem, Ins("http://" + now.address)]
    ensures v'.channel.Some? && v'.channel.value.uri == "http://" + now.address
  {
  }

  // An id that stays as it was is left alone; one that is gone is taken away, and
  // nothing else is said of it; a new one is announced if it can be reached.
  lemma OnlyChangesAnnounced(valid: string -> bool, v: View, now: Option<Instance>, v': View)
    requires Moved(valid, v, now, v')
    ensures v.entry == now ==> v' == v
    ensures v.entry.Some? && now.None? ==> v'.shapes == v.shapes + [Rem] && v'.channel.None?
    ensures v.entry.None? && now.Some? ==>
              var uri := "http://" + now.value.address;
              v'.shapes == v.shapes + (if valid(uri) then [Ins(uri)] else [])
  {
  }

  class ServiceDiscover {
    // Whether a channel can be made for a URI. The URI of a socket address is
    // expected to be valid; nothing here depends on it.
    const validUri: string -> bool
    var instances: map<string, Instance>
    var channelCache: map<string, Channel>
    var made: nat
    ghost var log: seq<Change>

    constructor (validUri: string -> bool)
      ensures this.validUri == validUri && instances == map[] && channelCache == map[] && log == []
    {
      this.validUri := validUri;
      instances, channelCache, made := map[], map[], 0;
      log := [];
    }

    predicate Reachable(i: Instance) { validUri(GrpcUri(i)) }

    ghost function ViewOf(id: string): View
      reads this
    {
      View(Lookup(instances, id), Shapes(log, id), Lookup(channelCache, id))
    }

    // The listener holds the cached channels.
    ghost predicate Heard()
      reads this
    {
      Replay(log) == channelCache
    }

    ghost predicate Agrees(id: string)
      reads this
    {
      ViewAgrees(validUri, ViewOf(id))
    }

    ghost predicate Consistent()
      reads this
    {
      Heard() && forall id :: Agrees(id)
    }

    // Cached channels are of known instances, even where they lead elsewhere.
    ghost predicate Sound()
      reads this
    {
      Heard() && forall id :: Known(id)
    }

    ghost predicate Known(id: string)
      reads this
    {
      id in channelCache ==> id in instances
    }

    // Nothing changed but, possibly, for one id.
    twostate predicate OthersKept(id: string)
      reads this
    {
      && (forall k | k != id :: Shapes(log, k) == old(Shapes(log, k)))
      && (forall k | k != id :: Lookup(channelCache, k) == old(Lookup(channelCache, k)))
    }

    // ---- the updater ----

    // A cached channel is used again, whatever address it leads to.
    method CreateChannelService(i: Instance) returns (channel: Option<Channel>)
      modifies this`channelCache, this`made
      ensures old(i.instanceId in channelCache) ==>
                channel == Some(old(channelCache)[i.instanceId]) && channelCache == old(channelCache)
      ensures old(i.instanceId !in channelCache) && !Reachable(i) ==>
                channel == None && channelCache == old(channelCache)
      ensures old(i.instanceId !in channelCache) && Reachable(i) ==>
                channel.Some? && channel.value.uri == "http://" + i.address
                && channelCache == old(channelCache)[i.instanceId := channel.value]
    {
      if i.instanceId in channelCache { return Some(channelCache[i.instanceId]); }
      if !validUri(GrpcUri(i)) { return None; }
      channel := Some(Channel(made, GrpcUri(i)));
      made := made + 1;
      channelCache := channelCache[i.instanceId := channel.value];
    }

    method InsertService(key: string, channel: Channel)
      modifies this`channelCache, this`log
      ensures channelCache == old(channelCache)[key := channel]
      ensures log == old(log) + [Insert(key, channel)]
      ensures Replay(log) == old(Replay(log))[key := channel]
      ensures forall id :: Shapes(log, id) == old(Shapes(log, id)) + (if key == id then [Ins(channel.uri)] else [])
    {
      LogAppend(log, Insert(key, channel));
      channelCache := channelCache[key := channel];
      log := log + [Insert(key, channel)];
    }

    method RemoveService(key: string)
      modifies this`channelCache, this`log
      ensures channelCache == old(channelCache) - {key}
      ensures log == old(log) + [Remove(key)]
      ensures Replay(log) == old(Replay(log)) - {key}
      ensures forall id :: Shapes(log, id) == old(Shapes(log, id)) + (if key == id then [Rem] else [])
    {
      LogAppend(log, Remove(key));
      channelCache := channelCache - {key};
      log := log + [Remove(key)];
    }

    // ---- refreshing ----

    // Makes a channel for an instance that has none, and announces it.
    method Admit(now: Instance)
      requires Heard() && now.instanceId !in channelCache
      modifies this`channelCache, this`made, this`log
      ensures Heard() && OthersKept(now.instanceId)
      ensures Shapes(log, now.instanceId)
              == old(Shapes(log, now.instanceId)) + (if Reachable(now) then [Ins(GrpcUri(now))] else [])
      ensures now.instanceId in channelCache <==> Reachable(now)
      ensures Reachable(now) ==> channelCache[now.instanceId].uri == GrpcUri(now)
    {
      hide Shapes, Replay;
      var service := CreateChannelService(now);
      if service.Some? {
        InsertService(now.instanceId, service.value);
      }
    }

    method Retire(id: string)
      requires Heard()
      modifies this`channelCache, this`log
      ensures Heard() && OthersKept(id)
      ensures Shapes(log, id) == old(Shapes(log, id)) + [Rem]
      ensures id !in channelCache
    {
      hide Shapes, Replay;
      RemoveService(id);
    }

    // Announces a new entry, after removing the one it takes the place of.
    method Replace(now: Instance, known: bool)
      requires Heard() && (!known ==> now.instanceId !in channelCache)
      modifies this`channelCache, this`made, this`log
      ensures Heard() && OthersKept(now.instanceId)
      ensures Shapes(log, now.instanceId)
              == old(Shapes(log, now.instanceId)) + (if known then [Rem] else [])
                 + (if Reachable(now) then [Ins(GrpcUri(now))] else [])
      ensures now.instanceId in channelCache <==> Reachable(now)
      ensures Reachable(now) ==> channelCache[now.instanceId].uri == GrpcUri(now)
    {
      hide Shapes, Replay;
      if known { Retire(now.instanceId); }
      Admit(now);
    }

    // Takes one entry of the snapshot into account.
    method Upsert(id: string, now: Instance)
      requires Sound() && now.instanceId == id
      modifies this
      ensures Sound()
      ensures Moved(validUri, old(ViewOf(id)), Some(now), ViewOf(id))
      ensures forall k | k != id :: ViewOf(k) == old(ViewOf(k))
    {
      if id in instances && instances[id] == now { return; }
      assert Known(id);
      Replace(now, id in instances);
      instances := instances[id := now];
      hide Shapes, Replay, Announced;
      forall k | k != id ensures Known(k) {
        assert old(Known(k)) && Lookup(channelCache, k) == old(Lookup(channelCache, k));
      }
    }

    // Forgets an id that the snapshot no longer has.
    method Drop(id: string)
      requires Sound() && ViewOf(id).entry.Some?
      modifies this
      ensures Sound()
      ensures Moved(validUri, old(ViewOf(id)), None, ViewOf(id))
      ensures forall k | k != id :: ViewOf(k) == old(ViewOf(k))
    {
      Retire(id);
      instances := instances - {id};
      forall k | k != id ensures Known(k) {
        assert old(Known(k)) && Lookup(channelCache, k) == old(Lookup(channelCache, k));
      }
    }

    // Entries come up in whatever order the map has.
    method UpsertAll(newMap: map<string, Instance>)
      requires Sound() && forall id | id in newMap :: newMap[id].instanceId == id
      modifies this
      ensures Sound()
      ensures forall id | id in newMap :: Moved(validUri, old(ViewOf(id)), Some(newMap[id]), ViewOf(id))
      ensures forall id | id !in newMap :: ViewOf(id) == old(ViewOf(id))
    {
      hide ViewOf, Moved, Sound;
      var left := newMap.Keys;
      while left != {}
        invariant Sound() && left <= newMap.Keys
        invariant forall id | id in newMap && id !in left ::
                    Moved(validUri, old(ViewOf(id)), Some(newMap[id]), ViewOf(id))
        invariant forall id | id !in newMap || id in left :: ViewOf(id) == old(ViewOf(id))
        decreases |left|
      {
        var id :| id in left;
        Upsert(id, newMap[id]);
        left := left - {id};
      }
    }

    method DropAll(ids: set<string>)
      requires Sound() && forall id | id in ids :: ViewOf(id).entry.Some?
      modifies this
      ensures Sound()
      ensures forall id | id in ids :: Moved(validUri, old(ViewOf(id)), None, ViewOf(id))
      ensures forall id | id !in ids :: ViewOf(id) == old(ViewOf(id))
    {
      hide Sound, ViewOf, Moved;
      var left := ids;
      while left != {}
        invariant Sound() && left <= ids
        invariant forall id | id in ids && id !in left :: Moved(validUri, old(ViewOf(id)), None, ViewOf(id))
        invariant forall id | id !in ids || id in left :: ViewOf(id) == old(ViewOf(id))
        invariant forall id | id in left :: ViewOf(id).entry.Some?
        decreases |left|
      {
        var id :| id in left;
        Drop(id);
        left := left - {id};
      }
    }

    // The instance table becomes the snapshot, and exactly the differences are
    // announced; agreement is kept, and restored wherever an entry changes.
    method Refresh(snapshot: seq<Instance>)
      requires Sound()
      modifies this
      ensures Sound() && (old(Consistent()) ==> Consistent())
      ensures instances == Table(snapshot)
      ensures forall id :: Moved(validUri, old(ViewOf(id)), Lookup(Table(snapshot), id), ViewOf(id))
    {
      var newMap := Table(snapshot);
      TableIds(snapshot);
      UpsertAll(newMap);
      DropAll(instances.Keys - newMap.Keys);
      StaysAway(validUri);
      hide Announced;
      forall id ensures Lookup(instances, id) == Lookup(newMap, id) {
        assert ViewOf(id).entry == Lookup(newMap, id);
      }
      SameTable(instances, newMap);
      if old(Consistent()) {
        forall id ensures Agrees(id) { assert old(Agrees(id)); }
      }
    }

    // The instances known before the first refresh: those a channel could be
    // made for.
    method InitialLoad(list: seq<Instance>)
      requires instances == map[] && channelCache == map[] && log == []
      modifies this
      ensures Heard()
      ensures forall id :: Loaded(validUri, list, id, ViewOf(id))
    {
      hide Loaded, Replay, Shapes;
      NothingLoaded(validUri);
      NoEvents();
      assert forall id :: ViewOf(id) == View(None, [], None);
      var i := 0;
      while i < |list|
        invariant 0 <= i <= |list|
        invariant Heard()
        invariant forall id :: Loaded(validUri, list[..i], id, ViewOf(id))
      {
        label before:
        LoadOne(list[i]);
        assert list[..i + 1] == list[..i] + [list[i]];
        forall id ensures Loaded(validUri, list[..i + 1], id, ViewOf(id)) {
          LoadedOneMore(validUri, list[..i], list[i], id, old@before(ViewOf(id)), ViewOf(id));
        }
        i := i + 1;
      }
      assert list[..|list|] == list;
    }

    method LoadOne(now: Instance)
      requires Heard()
      modifies this
      ensures Heard()
      ensures forall id :: TookIn(validUri, now, id, old(ViewOf(id)), ViewOf(id))
    {
      hide Shapes, Replay;
      var service := CreateChannelService(now);
      if service.Some? {
        InsertService(now.instanceId, service.value);
        instances := instances[now.instanceId := now];
      }
    }

    // The first load, then one refresh for each answer of the backend. An id's
    // channel leads to its address exactly if the first load left it so, or
    // the id's entry has changed since.
    method FollowBackend(first: Option<seq<Instance>>, answers: seq<Option<seq<Instance>>>)
      requires instances == map[] && channelCache == map[] && log == []
      modifies this
      ensures Sound()
      ensures LastAnswer(answers).Some? ==> instances == Table(LastAnswer(answers).value)
      ensures LastAnswer(answers).None? ==> instances == LoadedTable(validUri, first)
      ensures forall id :: Agrees(id) <==> LoadedRight(validUri, first, id) || Changed(validUri, first, answers, id)
      ensures AllReachable(validUri, first, answers) && (first.Some? ==> DistinctIds(first.value)) ==>
                forall id :: TakesTurns(ViewOf(id))
    {
      ghost var orderly := AllReachable(validUri, first, answers) && (first.Some? ==> DistinctIds(first.value));
      assert LastAnswer([]) == None;
      hide *;
      NoneReachable(validUri, first, answers);
      LoadFirst(first);
      assert answers[..0] == [];
      var i := 0;
      while i < |answers|
        invariant 0 <= i <= |answers|
        invariant Sound()
        invariant LastAnswer(answers[..i]).Some? ==> instances == Table(LastAnswer(answers[..i]).value)
        invariant LastAnswer(answers[..i]).None? ==> instances == LoadedTable(validUri, first)
        invariant forall id :: Tracked(validUri, first, answers[..i], id, ViewOf(id))
        invariant orderly ==> Orderly()
      {
        LastAnswerNext(answers, i);
        if orderly && answers[i].Some? { AnswerReachable(validUri, first, answers, i); }
        TakeAnswer(first, answers, i);
        i := i + 1;
      }
      assert answers[..|answers|] == answers;
      OrderlyTakesTurns(this);
      TrackedMeans(this, first, answers);
    }

    // One answer of the backend; a failed one changes nothing.
    method TakeAnswer(ghost first: Option<seq<Instance>>, answers: seq<Option<seq<Instance>>>, i: nat)
      requires Sound() && i < |answers| && forall id :: Tracked(validUri, first, answers[..i], id, ViewOf(id))
      modifies this
      ensures Sound() && forall id :: Tracked(validUri, first, answers[..i + 1], id, ViewOf(id))
      ensures instances == if answers[i].Some? then Table(answers[i].value) else old(instances)
      ensures old(Orderly()) && (answers[i].Some? ==> ListReachable(validUri, answers[i].value)) ==> Orderly()
    {
      hide *;
      if answers[i].Some? { RefreshOrderly(answers[i].value); }
      forall id ensures Tracked(validUri, first, answers[..i + 1], id, ViewOf(id)) {
        TrackedNext(validUri, first, answers, i, id, old(ViewOf(id)), ViewOf(id));
      }
    }

    method LoadFirst(first: Option<seq<Instance>>)
      requires instances == map[] && channelCache == map[] && log == []
      modifies this
      ensures Sound() && instances == LoadedTable(validUri, first)
      ensures forall id :: Tracked(validUri, first, [], id, ViewOf(id))
      ensures (first.Some? ==> DistinctIds(first.value)) && AllReachable(validUri, first, []) ==> Orderly()
    {
      if first.None? {
        NoEvents();
        return;
      }
      InitialLoad(first.value);
      LoadIsTable(this, first.value);
      LoadIsTracked(this, first.value);
      if DistinctIds(first.value) && AllReachable(validUri, first, []) { LoadTakesTurns(this, first.value); }
    }

    ghost predicate Orderly()
      reads this
    {
      forall id :: TakesTurns(ViewOf(id)) && EntryReachable(validUri, ViewOf(id))
    }

    method RefreshOrderly(snapshot: seq<Instance>)
      requires Sound()
      modifies this
      ensures Sound()
      ensures instances == Table(snapshot)
      ensures forall id :: Moved(validUri, old(ViewOf(id)), Lookup(Table(snapshot), id), ViewOf(id))
      ensures old(Orderly()) && ListReachable(validUri, snapshot) ==> Orderly()
    {
      Refresh(snapshot);
      if old(Orderly()) && ListReachable(validUri, snapshot) {
        forall id ensures TakesTurns(ViewOf(id)) && EntryReachable(validUri, ViewOf(id)) {
          assert TakesTurns(old(ViewOf(id))) && EntryReachable(validUri, old(ViewOf(id)));
          assert Moved(validUri, old(ViewOf(id)), Lookup(Table(snapshot), id), ViewOf(id));
          TableIsListed(snapshot, id);
          RefreshKeepsTurns(validUri, old(ViewOf(id)), Lookup(Table(snapshot), id), ViewOf(id));
        }
      }
    }
  }

  lemma OrderlyTakesTurns(d: ServiceDiscover)
    ensures d.Orderly() ==> forall id :: TakesTurns(d.ViewOf(id))
  {
  }

  lemma LoadIsTracked(d: ServiceDiscover, list: seq<Instance>)
    requires d.Heard() && forall id :: Loaded(d.validUri, list, id, d.ViewOf(id))
    ensures d.Sound() && forall id :: Tracked(d.validUri, Some(list), [], id, d.ViewOf(id))
  {
    LoadIsTable(d, list);
    forall id ensures d.Known(id) && Tracked(d.validUri, Some(list), [], id, d.ViewOf(id)) {
      assert Loaded(d.validUri, list, id, d.ViewOf(id));
      LoadedAgrees(d.validUri, list, id, d.ViewOf(id));
    }
  }

  lemma LoadIsTable(d: ServiceDiscover, list: seq<Instance>)
    requires forall id :: Loaded(d.validUri, list, id, d.ViewOf(id))
    ensures d.instances == LoadedTable(d.validUri, Some(list))
  {
    forall id ensures Lookup(d.instances, id) == Lookup(LoadedTable(d.validUri, Some(list)), id) {
      assert Loaded(d.validUri, list, id, d.ViewOf(id));
      FirstIsListed(d.validUri, list, id);
    }
    SameTable(d.instances, LoadedTable(d.validUri, Some(list)));
  }

  lemma LoadTakesTurns(d: ServiceDiscover, list: seq<Instance>)
    requires forall id :: Loaded(d.validUri, list, id, d.ViewOf(id))
    requires DistinctIds(list) && ListReachable(d.validUri, list)
    ensures d.Orderly()
  {
    forall id ensures TakesTurns(d.ViewOf(id)) && EntryReachable(d.validUri, d.ViewOf(id)) {
      assert Loaded(d.validUri, list, id, d.ViewOf(id));
      DistinctInsertsOnce(d.validUri, list, id);
      TableIsListed(list, id);
    }
  }

  // ---- the first load ----

  // The first entry of the id that a channel can be made for.
  function FirstReachable(valid: string -> bool, list: seq<Instance>, id: string): Option<Instance> {
    if list == [] then None
    else
      var earlier, last := FirstReachable(valid, list[..|list| - 1], id), list[|list| - 1];
      if earlier.Some? then earlier
      else if last.instanceId == id && valid(GrpcUri(last)) then Some(last)
      else None
  }

  // How many entries of the id come from its first reachable one on.
  function Inserted(valid: string -> bool, list: seq<Instance>, id: string): nat {
    if list == [] then 0
    else
      Inserted(valid, list[..|list| - 1], id)
      + (if list[|list| - 1].instanceId == id && FirstReachable(valid, list, id).Some? then 1 else 0)
  }

  // The entry is the last of the id; its channel, and every announcement, is
  // for the address of the first reachable one.
  ghost predicate Loaded(valid: string -> bool, list: seq<Instance>, id: string, v: View) {
    var first := FirstReachable(valid, list, id);
    && (first.None? ==> v.entry.None? && v.channel.None? && v.shapes == [])
    && (first.Some? ==> v.entry.Some? && v.entry == Lookup(Table(list), id)
                        && v.channel.Some? && v.channel.value.uri == GrpcUri(first.value))
    && |v.shapes| == Inserted(valid, list, id)
    && (first.Some? ==> forall i | 0 <= i < |v.shapes| :: v.shapes[i] == Ins(GrpcUri(first.value)))
  }

  // What taking in one entry changes for an id.
  ghost predicate TookIn(valid: string -> bool, now: Instance, id: string, v: View, v': View) {
    if now.instanceId != id || (v.channel.None? && !valid(GrpcUri(now))) then v' == v
    else
      && v'.entry == Some(now)
      && v'.channel.Some?
      && (if v.channel.Some? then v'.channel == v.channel else v'.channel.value.uri == GrpcUri(now))
      && v'.shapes == v.shapes + [Ins(v'.channel.value.uri)]
  }

  lemma LoadedOneMore(valid: string -> bool, list: seq<Instance>, now: Instance, id: string, v: View, v': View)
    requires Loaded(valid, list, id, v) && TookIn(valid, now, id, v, v')
    ensures Loaded(valid, list + [now], id, v')
  {
    assert (list + [now])[..|list|] == list;
  }

  lemma NothingLoaded(valid: string -> bool)
    ensures forall id :: Loaded(valid, [], id, View(None, [], None))
  {
  }

  lemma NoEvents()
    ensures Replay([]) == map[] && forall id :: Shapes([], id) == []
  {
  }

  // Every id's last entry has the address of its first reachable one.
  ghost predicate LoadAgrees(valid: string -> bool, list: seq<Instance>) {
    forall id :: AddressAgrees(valid, list, id)
  }

  ghost predicate AddressAgrees(valid: string -> bool, list: seq<Instance>, id: string) {
    var first := FirstReachable(valid, list, id);
    first.Some? ==> id in Table(list) && Table(list)[id].address == first.value.address
  }

  lemma {:induction false} FirstIsListed(valid: string -> bool, list: seq<Instance>, id: string)
    ensures var first := FirstReachable(valid, list, id);
            first.Some? ==> id in Table(list) && valid(GrpcUri(first.value)) && first.value.instanceId == id
                            && exists i | 0 <= i < |list| :: list[i] == first.value
  {
    if list != [] {
      FirstIsListed(valid, list[..|list| - 1], id);
      if FirstReachable(valid, list[..|list| - 1], id).Some? {
        var i :| 0 <= i < |list| - 1 && list[..|list| - 1][i] == FirstReachable(valid, list, id).value;
        assert list[i] == FirstReachable(valid, list, id).value;
      }
    }
  }

  lemma LoadedAgrees(valid: string -> bool, list: seq<Instance>, id: string, v: View)
    requires Loaded(valid, list, id, v)
    ensures ViewAgrees(valid, v) <==> AddressAgrees(valid, list, id)
  {
    FirstIsListed(valid, list, id);
    var first := FirstReachable(valid, list, id);
    if first.Some? { UriTellsAddress(Table(list)[id], first.value); }
  }

  // The first load leaves cache and table in agreement exactly when for every
  // id the last entry has the address of the first reachable one.
  lemma LoadIsConsistent(d: ServiceDiscover, list: seq<Instance>)
    requires d.Heard() && forall id :: Loaded(d.validUri, list, id, d.ViewOf(id))
    ensures d.Consistent() <==> LoadAgrees(d.validUri, list)
  {
    forall id ensures d.Agrees(id) <==> AddressAgrees(d.validUri, list, id) {
      assert Loaded(d.validUri, list, id, d.ViewOf(id));
      LoadedAgrees(d.validUri, list, id, d.ViewOf(id));
    }
  }

  // Two entries of one id with different addresses break it.
  lemma TwoAddressesDisagree(valid: string -> bool, a: Instance, b: Instance)
    requires a.instanceId == b.instanceId && a.address != b.address && valid(GrpcUri(a))
    ensures !LoadAgrees(valid, [a, b])
  {
    assert [a, b][..1] == [a] && [a][..0] == [];
    assert FirstReachable(valid, [a], a.instanceId) == Some(a);
    assert FirstReachable(valid, [a, b], a.instanceId) == Some(a) && Table([a, b])[a.instanceId] == b;
    assert !AddressAgrees(valid, [a, b], a.instanceId);
  }

  ghost predicate DistinctIds(list: seq<Instance>) {
    forall i, j | 0 <= i < j < |list| :: list[i].instanceId != list[j].instanceId
  }

  lemma {:induction false} TableIsListed(list: seq<Instance>, id: string)
    ensures id in Table(list) ==> exists i | 0 <= i < |list| :: list[i] == Table(list)[id] && list[i].instanceId == id
  {
    if list != [] && id in Table(list) && list[|list| - 1].instanceId != id {
      TableIsListed(list[..|list| - 1], id);
      var i :| 0 <= i < |list| - 1 && list[..|list| - 1][i] == Table(list)[id]
               && list[..|list| - 1][i].instanceId == id;
      assert list[i] == Table(list)[id];
    }
  }

  // Distinct ids are enough.
  lemma DistinctLoadAgrees(valid: string -> bool, list: seq<Instance>)
    requires DistinctIds(list)
    ensures LoadAgrees(valid, list)
  {
    forall id ensures AddressAgrees(valid, list, id) {
      FirstIsListed(valid, list, id);
      TableIsListed(list, id);
    }
  }

  lemma {:induction false} DistinctInsertsOnce(valid: string -> bool, list: seq<Instance>, id: string)
    requires DistinctIds(list)
    ensures Inserted(valid, list, id) == if FirstReachable(valid, list, id).Some? then 1 else 0
  {
    if list != [] {
      DistinctInsertsOnce(valid, list[..|list| - 1], id);
      FirstIsListed(valid, list[..|list| - 1], id);
    }
  }

  // ---- every run ----

  function LastAnswer(answers: seq<Option<seq<Instance>>>): Option<seq<Instance>> {
    if answers == [] then None
    else if answers[|answers| - 1].Some? then answers[|answers| - 1]
    else LastAnswer(answers[..|answers| - 1])
  }

  ghost function LoadedTable(valid: string -> bool, first: Option<seq<Instance>>): map<string, Instance> {
    if first.None? then map[]
    else map id | id in Table(first.value) && FirstReachable(valid, first.value, id).Some? :: Table(first.value)[id]
  }

  // The first load left the id's channel at its address.
  ghost predicate LoadedRight(valid: string -> bool, first: Option<seq<Instance>>, id: string) {
    first.Some? ==> AddressAgrees(valid, first.value, id)
  }

  // Some answer had another entry for the id than the first load.
  ghost predicate Changed(
      valid: string -> bool, first: Option<seq<Instance>>, answers: seq<Option<seq<Instance>>>, id: string) {
    exists a | 0 <= a < |answers| :: ChangedBy(valid, first, answers[a], id)
  }

  ghost predicate ChangedBy(
      valid: string -> bool, first: Option<seq<Instance>>, answer: Option<seq<Instance>>, id: string) {
    answer.Some? && Lookup(Table(answer.value), id) != Lookup(LoadedTable(valid, first), id)
  }

  // What the answers so far mean for an id.
  ghost predicate Tracked(
      valid: string -> bool, first: Option<seq<Instance>>, answers: seq<Option<seq<Instance>>>, id: string, v: View) {
    if Changed(valid, first, answers, id) then ViewAgrees(valid, v)
    else
      && v.entry == Lookup(LoadedTable(valid, first), id)
      && (ViewAgrees(valid, v) <==> LoadedRight(valid, first, id))
  }

  lemma TrackedNext(
      valid: string -> bool, first: Option<seq<Instance>>, answers: seq<Option<seq<Instance>>>, i: nat, id: string,
      v: View, v': View)
    requires i < |answers| && Tracked(valid, first, answers[..i], id, v)
    requires if answers[i].Some? then Moved(valid, v, Lookup(Table(answers[i].value), id), v') else v' == v
    ensures Tracked(valid, first, answers[..i + 1], id, v')
  {
    ChangedNext(valid, first, answers, i, id);
    hide Changed, LoadedRight, LoadedTable, Table, Announced;
  }

  lemma ChangedNext(
      valid: string -> bool, first: Option<seq<Instance>>, answers: seq<Option<seq<Instance>>>, i: nat, id: string)
    requires i < |answers|
    ensures Changed(valid, first, answers[..i + 1], id)
            <==> Changed(valid, first, answers[..i], id) || ChangedBy(valid, first, answers[i], id)
  {
    hide ChangedBy;
    var more := answers[..i + 1];
    assert more[i] == answers[i];
    if Changed(valid, first, answers[..i], id) {
      var a :| 0 <= a < i && ChangedBy(valid, first, answers[..i][a], id);
      assert more[a] == answers[..i][a];
    }
    if Changed(valid, first, more, id) {
      var a :| 0 <= a < |more| && ChangedBy(valid, first, more[a], id);
      if a < i { assert answers[..i][a] == more[a]; }
    }
  }

  lemma TrackedMeans(d: ServiceDiscover, first: Option<seq<Instance>>, answers: seq<Option<seq<Instance>>>)
    requires forall id :: Tracked(d.validUri, first, answers, id, d.ViewOf(id))
    ensures forall id :: d.Agrees(id) <==> LoadedRight(d.validUri, first, id) || Changed(d.validUri, first, answers, id)
  {
    forall id
      ensures d.Agrees(id) <==> LoadedRight(d.validUri, first, id) || Changed(d.validUri, first, answers, id)
    {
      assert Tracked(d.validUri, first, answers, id, d.ViewOf(id));
      hide Changed, LoadedRight, ViewAgrees;
    }
  }

  ghost predicate AllReachable(
      valid: string -> bool, first: Option<seq<Instance>>, answers: seq<Option<seq<Instance>>>) {
    && (first.Some? ==> ListReachable(valid, first.value))
    && forall a | 0 <= a < |answers| && answers[a].Some? :: ListReachable(valid, answers[a].value)
  }

  ghost predicate ListReachable(valid: string -> bool, list: seq<Instance>) {
    forall i | 0 <= i < |list| :: valid(GrpcUri(list[i]))
  }

  lemma NoneReachable(valid: string -> bool, first: Option<seq<Instance>>, answers: seq<Option<seq<Instance>>>)
    ensures AllReachable(valid, first, answers) ==> AllReachable(valid, first, [])
  {
  }

  lemma AnswerReachable(
      valid: string -> bool, first: Option<seq<Instance>>, answers: seq<Option<seq<Instance>>>, i: nat)
    requires AllReachable(valid, first, answers) && i < |answers| && answers[i].Some?
    ensures ListReachable(valid, answers[i].value)
  {
  }

  lemma LastAnswerNext(answers: seq<Option<seq<Instance>>>, i: nat)
    requires i < |answers|
    ensures LastAnswer(answers[..i + 1]) == if answers[i].Some? then answers[i] else LastAnswer(answers[..i])
  {
    assert answers[..i + 1][..i] == answers[..i];
  }

  // Insertions and removals alternate, and the id is in the cache exactly
  // after an insertion.
  ghost predicate TakesTurns(v: View) {
    Alternating(v.shapes) && (|v.shapes| % 2 == 1 <==> v.channel.Some?)
  }

  ghost predicate EntryReachable(valid: string -> bool, v: View) {
    && (v.entry.Some? ==> valid(GrpcUri(v.entry.value)))
    && (v.channel.Some? <==> v.entry.Some?)
  }

  lemma RefreshKeepsTurns(valid: string -> bool, v: View, now: Option<Instance>, v': View)
    requires TakesTurns(v) && EntryReachable(valid, v) && Moved(valid, v, now, v')
    requires now.Some? ==> valid(GrpcUri(now.value))
    requires v'.channel.Some? <==> now.Some?
    ensures TakesTurns(v') && EntryReachable(valid, v')
  {
  }

  // Why reachable entries are needed, should addresses ever be other than
  // socket addresses: turns are broken exactly by replacing or dropping an
  // entry that no channel could be made for.
  lemma TurnsBreakOnUnreachable(valid: string -> bool, v: View, now: Option<Instance>)
    requires TakesTurns(v)
    requires v.channel.Some? <==> v.entry.Some? && valid(GrpcUri(v.entry.value))
    ensures Alternating(v.shapes + Announced(valid, v.entry, now))
            <==> !(v.entry.Some? && !valid(GrpcUri(v.entry.value)) && v.entry != now)
  {
    var more := v.shapes + Announced(valid, v.entry, now);
    if v.entry.Some? && v.entry != now { assert more[|v.shapes|] == Rem; }
  }

  lemma StaysAway(valid: string -> bool)
    ensures forall v: View | v.entry.None? :: Moved(valid, v, None, v)
  {
  }

  lemma SameTable<V>(a: map<string, V>, b: map<string, V>)
    requires forall k :: Lookup(a, k) == Lookup(b, k)
    ensures a == b
  {
    forall k ensures k in a <==> k in b { assert Lookup(a, k) == Lookup(b, k); }
    forall k | k in a ensures a[k] == b[k] { assert Lookup(a, k) == Lookup(b, k); }
  }

  lemma {:induction false} TableIds(list: seq<Instance>)
    ensures forall id | id in Table(list) :: Table(list)[id].instanceId == id
  {
    if list != [] { TableIds(list[..|list| - 1]); }
  }
}
