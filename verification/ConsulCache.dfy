// The Consul discovery cache: its key, and what it answers.
module CacheKey {
  import opened Wrappers
  import Text

  // ---- the order of tag names ----

  predicate Less(a: string, b: string) {
    b != "" && (a == "" || a[0] < b[0] || (a[0] == b[0] && Less(a[1..], b[1..])))
  }

  lemma {:induction false} LessIsStrict(a: string, b: string)
    ensures !(Less(a, b) && Less(b, a)) && !Less(a, a)
  {
    if a != "" && b != "" { LessIsStrict(a[1..], b[1..]); }
    if a != "" { LessIsStrict(a[1..], a[1..]); }
  }

  lemma {:induction false} LessIsTotal(a: string, b: string)
    ensures a == b || Less(a, b) || Less(b, a)
  {
    if a != "" && b != "" && a[0] == b[0] {
      LessIsTotal(a[1..], b[1..]);
      assert a == [a[0]] + a[1..] && b == [b[0]] + b[1..];
    }
  }

  lemma {:induction false} LessIsTransitive(a: string, b: string, c: string)
    requires Less(a, b) && Less(b, c)
    ensures Less(a, c)
  {
    if a != "" && a[0] == b[0] == c[0] { LessIsTransitive(a[1..], b[1..], c[1..]); }
  }

  ghost predicate Ascending(names: seq<string>) {
    forall i, j | 0 <= i < j < |names| :: Less(names[i], names[j])
  }

  // Two ascending lists of the same names are the same list.
  lemma {:induction false} AscendingUnique(a: seq<string>, b: seq<string>)
    requires Ascending(a) && Ascending(b) && forall s :: s in a <==> s in b
    ensures a == b
  {
    assert a != [] ==> a[0] in a;
    assert b != [] ==> b[0] in b;
    if a != [] && b != [] {
      FirstIsLeast(a, b);
      TailNames(a);
      TailNames(b);
      AscendingUnique(a[1..], b[1..]);
      assert a == [a[0]] + a[1..] && b == [b[0]] + b[1..];
    }
  }

  lemma FirstIsLeast(a: seq<string>, b: seq<string>)
    requires Ascending(a) && Ascending(b) && a != [] && b != [] && a[0] in b && b[0] in a
    ensures a[0] == b[0]
  {
    var i :| 0 <= i < |b| && b[i] == a[0];
    var j :| 0 <= j < |a| && a[j] == b[0];
    LessIsStrict(a[0], b[0]);
  }

  lemma TailNames(a: seq<string>)
    requires Ascending(a) && a != []
    ensures Ascending(a[1..]) && forall s :: s in a[1..] <==> s in a && s != a[0]
  {
    LessIsStrict(a[0], a[0]);
    assert a == [a[0]] + a[1..];
    forall i | 1 <= i < |a| ensures a[i] != a[0] { assert Less(a[0], a[i]); }
  }

  // ---- sorting ----

  // Where the name goes in the ascending list.
  function Insert(name: string, names: seq<string>): seq<string> {
    if names == [] || Less(name, names[0]) then [name] + names else [names[0]] + Insert(name, names[1..])
  }

  lemma {:induction false} InsertKeepsOrder(name: string, names: seq<string>)
    requires Ascending(names) && name !in names
    ensures Ascending(Insert(name, names)) && forall s :: s in Insert(name, names) <==> s == name || s in names
  {
    if names == [] {
    } else if Less(name, names[0]) {
      forall i | 0 <= i < |names| ensures Less(name, names[i]) {
        if i > 0 { LessIsTransitive(name, names[0], names[i]); }
      }
    } else {
      TailNames(names);
      InsertKeepsOrder(name, names[1..]);
      LessIsTotal(name, names[0]);
      var rest := Insert(name, names[1..]);
      forall i | 0 <= i < |rest| ensures Less(names[0], rest[i]) {
        assert rest[i] in rest;
        if rest[i] != name {
          var k :| 0 <= k < |names[1..]| && names[1..][k] == rest[i];
          assert names[k + 1] == rest[i];
        }
      }
      assert names == [names[0]] + names[1..];
    }
  }

  // The tag names in ascending order, whatever order the map yields them in.
  method SortNames(tags: map<string, string>) returns (names: seq<string>)
    ensures Ascending(names) && forall s :: s in names <==> s in tags
  {
    names := [];
    var left := tags.Keys;
    while left != {}
      invariant left <= tags.Keys && Ascending(names)
      invariant forall s :: s in names <==> s in tags && s !in left
      decreases |left|
    {
      hide Ascending;
      var name :| name in left;
      InsertKeepsOrder(name, names);
      names := Insert(name, names);
      left := left - {name};
    }
  }

  // ---- the key ----

  function Or(o: Option<string>): string {
    if o.Some? then o.value else ""
  }

  // Each tag is appended after a bar.
  function TagsText(names: seq<string>, tags: map<string, string>): string
    requires forall s | s in names :: s in tags
  {
    if names == [] then ""
    else
      var last := names[|names| - 1];
      TagsText(names[..|names| - 1], tags) + "|" + last + "=" + tags[last]
  }

  function Head(service: string, namespace: Option<string>, version: Option<string>): string {
    service + "|ns=" + Or(namespace) + "|ver=" + Or(version)
  }

  function Tags(tags: Option<map<string, string>>): map<string, string> {
    if tags.Some? then tags.value else map[]
  }

  // The key of a query.
  ghost predicate IsKey(key: string, service: string, namespace: Option<string>, version: Option<string>,
                        tags: Option<map<string, string>>) {
    exists names | Ascending(names) && (forall s :: s in names <==> s in Tags(tags)) ::
      key == Head(service, namespace, version) + TagsText(names, Tags(tags))
  }

  lemma NoTags(names: seq<string>, tags: map<string, string>)
    ensures TagsText(names[..0], tags) == ""
  {
  }

  lemma NextTag(names: seq<string>, tags: map<string, string>, i: nat)
    requires i < |names| && forall s | s in names :: s in tags
    ensures TagsText(names[..i + 1], tags) == TagsText(names[..i], tags) + "|" + names[i] + "=" + tags[names[i]]
  {
    assert names[..i + 1][..i] == names[..i];
  }

  lemma Appended(head: string, rest: string, name: string, value: string)
    ensures head + rest + "|" + name + "=" + value == head + (rest + "|" + name + "=" + value)
  {
  }

  method DiscoverCacheKey(service: string, namespace: Option<string>, version: Option<string>,
                          tags: Option<map<string, string>>)
    returns (key: string)
    ensures IsKey(key, service, namespace, version, tags)
  {
    key := Head(service, namespace, version);
    if tags.None? {
      assert key == key + TagsText([], Tags(tags));
      return;
    }
    var names := SortNames(tags.value);
    NoTags(names, tags.value);
    hide Head, Ascending, TagsText;
    var i := 0;
    while i < |names|
      invariant 0 <= i <= |names|
      invariant key == Head(service, namespace, version) + TagsText(names[..i], tags.value)
    {
      NextTag(names, tags.value, i);
      Appended(Head(service, namespace, version), TagsText(names[..i], tags.value), names[i], tags.value[names[i]]);
      key := key + "|";
      key := key + names[i];
      key := key + "=";
      key := key + tags.value[names[i]];
      i := i + 1;
    }
    assert names[..|names|] == names;
  }

  // The key does not depend on the order the tags come in.
  lemma KeyIsDetermined(a: string, b: string, service: string, namespace: Option<string>, version: Option<string>,
                        tags: Option<map<string, string>>)
    requires IsKey(a, service, namespace, version, tags) && IsKey(b, service, namespace, version, tags)
    ensures a == b
  {
    var m :| Ascending(m) && (forall s :: s in m <==> s in Tags(tags))
             && a == Head(service, namespace, version) + TagsText(m, Tags(tags));
    var n :| Ascending(n) && (forall s :: s in n <==> s in Tags(tags))
             && b == Head(service, namespace, version) + TagsText(n, Tags(tags));
    AscendingUnique(m, n);
  }

  // ---- different queries have different keys ----

  // The key's separators do not occur where they would mislead.
  ghost predicate Plain(service: string, namespace: Option<string>, version: Option<string>,
                        tags: Option<map<string, string>>) {
    && '|' !in service && '|' !in Or(namespace) && '|' !in Or(version)
    && forall s | s in Tags(tags) :: '|' !in s && '=' !in s && '|' !in Tags(tags)[s]
  }

  function TagPieces(names: seq<string>, tags: map<string, string>): (pieces: seq<string>)
    requires forall s | s in names :: s in tags
    ensures |pieces| == |names| && forall i | 0 <= i < |names| :: pieces[i] == names[i] + "=" + tags[names[i]]
  {
    if names == [] then []
    else
      var last := names[|names| - 1];
      TagPieces(names[..|names| - 1], tags) + [last + "=" + tags[last]]
  }

  lemma {:induction false} JoinAppend(parts: seq<string>, part: string)
    requires parts != []
    ensures Text.Join(parts + [part], '|') == Text.Join(parts, '|') + "|" + part
  {
    if |parts| > 1 {
      JoinAppend(parts[1..], part);
      assert (parts + [part])[1..] == parts[1..] + [part];
    } else {
      assert (parts + [part])[1..] == [part];
    }
  }

  lemma {:induction false} KeyIsJoined(front: seq<string>, names: seq<string>, tags: map<string, string>)
    requires front != [] && forall s | s in names :: s in tags
    ensures Text.Join(front + TagPieces(names, tags), '|') == Text.Join(front, '|') + TagsText(names, tags)
  {
    hide Text.Join;
    if names == [] {
      assert front + TagPieces(names, tags) == front;
    } else {
      var last := names[|names| - 1];
      var rest, pieces := TagsText(names[..|names| - 1], tags), TagPieces(names[..|names| - 1], tags);
      KeyIsJoined(front, names[..|names| - 1], tags);
      assert front + TagPieces(names, tags) == front + pieces + [last + "=" + tags[last]];
      hide TagPieces, TagsText;
      JoinAppend(front + pieces, last + "=" + tags[last]);
      Regroup(Text.Join(front, '|'), rest, last, tags[last]);
    }
  }

  lemma Regroup(a: string, b: string, c: string, d: string)
    ensures a + b + "|" + (c + "=" + d) == a + (b + "|" + c + "=" + d)
  {
  }

  function HeadPieces(service: string, namespace: Option<string>, version: Option<string>): seq<string> {
    [service, "ns=" + Or(namespace), "ver=" + Or(version)]
  }

  lemma HeadIsJoined(service: string, namespace: Option<string>, version: Option<string>)
    ensures Text.Join(HeadPieces(service, namespace, version), '|') == Head(service, namespace, version)
  {
    var pieces := HeadPieces(service, namespace, version);
    assert pieces == [service] + [pieces[1]] + [pieces[2]];
    JoinAppend([service], pieces[1]);
    JoinAppend([service] + [pieces[1]], pieces[2]);
  }

  // A plain key splits into its pieces again.
  lemma KeySplits(key: string, service: string, namespace: Option<string>, version: Option<string>,
                  tags: Option<map<string, string>>)
    returns (names: seq<string>)
    requires IsKey(key, service, namespace, version, tags) && Plain(service, namespace, version, tags)
    ensures Ascending(names) && forall s :: s in names <==> s in Tags(tags)
    ensures Text.Split(key, '|') == HeadPieces(service, namespace, version) + TagPieces(names, Tags(tags))
  {
    names :| Ascending(names) && (forall s :: s in names <==> s in Tags(tags))
             && key == Head(service, namespace, version) + TagsText(names, Tags(tags));
    var front, pieces := HeadPieces(service, namespace, version), TagPieces(names, Tags(tags));
    HeadIsJoined(service, namespace, version);
    KeyIsJoined(front, names, Tags(tags));
    hide Head, TagsText, TagPieces, Ascending;
    forall i | 0 <= i < |pieces| ensures '|' !in pieces[i] { assert names[i] in names; }
    Text.SplitJoin(front + pieces, '|');
  }

  // Two parts that count as one: they are the same, or both are absent or empty.
  ghost predicate Alike(a: Option<string>, b: Option<string>) {
    a == b || (a in {None, Some("")} && b in {None, Some("")})
  }

  // Plain queries with one key are one query; an absent namespace, version or
  // tag list counts as an empty one.
  lemma KeyTellsQueriesApart(
      key: string, service: string, namespace: Option<string>, version: Option<string>,
      tags: Option<map<string, string>>, service': string, namespace': Option<string>, version': Option<string>,
      tags': Option<map<string, string>>)
    requires IsKey(key, service, namespace, version, tags) && Plain(service, namespace, version, tags)
    requires IsKey(key, service', namespace', version', tags') && Plain(service', namespace', version', tags')
    ensures service == service' && Alike(namespace, namespace') && Alike(version, version')
    ensures tags == tags' || (tags in {None, Some(map[])} && tags' in {None, Some(map[])})
  {
    var names := KeySplits(key, service, namespace, version, tags);
    var names' := KeySplits(key, service', namespace', version', tags');
    hide IsKey, Ascending, Text.Split;
    SameHead(service, namespace, version, TagPieces(names, Tags(tags)),
             service', namespace', version', TagPieces(names', Tags(tags')));
    SameTags(names, Tags(tags), names', Tags(tags'));
  }

  lemma SameHead(service: string, namespace: Option<string>, version: Option<string>, rest: seq<string>,
                 service': string, namespace': Option<string>, version': Option<string>, rest': seq<string>)
    requires HeadPieces(service, namespace, version) + rest == HeadPieces(service', namespace', version') + rest'
    ensures service == service' && Or(namespace) == Or(namespace') && Or(version) == Or(version') && rest == rest'
  {
    var a, b := HeadPieces(service, namespace, version), HeadPieces(service', namespace', version');
    assert (a + rest)[0] == a[0] && (a + rest)[1] == a[1] && (a + rest)[2] == a[2] && (a + rest)[3..] == rest;
    assert (b + rest')[0] == b[0] && (b + rest')[1] == b[1] && (b + rest')[2] == b[2] && (b + rest')[3..] == rest';
    assert a[1][3..] == Or(namespace) && b[1][3..] == Or(namespace');
    assert a[2][4..] == Or(version) && b[2][4..] == Or(version');
  }

  lemma SameTags(names: seq<string>, tags: map<string, string>, names': seq<string>, tags': map<string, string>)
    requires (forall s :: s in names <==> s in tags) && (forall s :: s in names' <==> s in tags')
    requires (forall s | s in tags :: '=' !in s) && (forall s | s in tags' :: '=' !in s)
    requires TagPieces(names, tags) == TagPieces(names', tags')
    ensures tags == tags'
  {
    hide TagPieces;
    assert |names| == |names'|;
    forall i | 0 <= i < |names| ensures names[i] == names'[i] && tags[names[i]] == tags'[names'[i]] {
      assert names[i] in names && names'[i] in names';
      Text.FirstSeparator(names[i], tags[names[i]], names'[i], tags'[names'[i]], '=');
    }
    assert names == names';
    forall s | s in tags ensures s in tags' && tags'[s] == tags[s] {
      var i :| 0 <= i < |names| && names[i] == s;
    }
  }
}

module ConsulCache {
  import opened Wrappers

  type Instances = seq<string>

  datatype Entry = Entry(instances: Instances, fetchedAt: int)

  // One discovery: what is asked for and when, what Consul would answer if
  // it were asked, and when that answer is stored.
  datatype Call = Call(key: string, ttl: nat, now: int, upstream: Result<Instances, string>, later: int)

  // What the call returns, and whether Consul was asked.
  datatype Answer = Answer(result: Result<Instances, string>, asked: bool)

  predicate Fresh(cache: map<string, Entry>, call: Call) {
    call.key in cache && call.now - cache[call.key].fetchedAt < call.ttl
  }

  function Serve(cache: map<string, Entry>, call: Call): (Answer, map<string, Entry>) {
    if Fresh(cache, call) then (Answer(Ok(cache[call.key].instances), false), cache)
    else if call.upstream.Ok? then
      (Answer(call.upstream, true), cache[call.key := Entry(call.upstream.value, call.later)])
    else if call.key in cache then (Answer(Ok(cache[call.key].instances), true), cache)
    else (Answer(call.upstream, true), cache)
  }

  class ConsulBackend {
    var cache: map<string, Entry>

    constructor ()
      ensures cache == map[]
    {
      cache := map[];
    }

    method Discover(call: Call) returns (answer: Answer)
      modifies this
      ensures (answer, cache) == Serve(old(cache), call)
    {
      if call.key in cache {
        var entry := cache[call.key];
        if call.now - entry.fetchedAt < call.ttl { return Answer(Ok(entry.instances), false); }
      }
      match call.upstream
      case Ok(instances) =>
        cache := cache[call.key := Entry(instances, call.later)];
        answer := Answer(Ok(instances), true);
      case Err(error) =>
        if call.key in cache { return Answer(Ok(cache[call.key].instances), true); }
        answer := Answer(Err(error), true);
    }
  }

  // ---- serial runs ----

  function CacheAfter(calls: seq<Call>): map<string, Entry> {
    if calls == [] then map[]
    else Serve(CacheAfter(calls[..|calls| - 1]), calls[|calls| - 1]).1
  }

  function AnswerTo(calls: seq<Call>, k: nat): Answer
    requires k < |calls|
  {
    Serve(CacheAfter(calls[..k]), calls[k]).0
  }

  // The call got instances from Consul itself.
  predicate Fetched(calls: seq<Call>, k: nat)
    requires k < |calls|
  {
    AnswerTo(calls, k).asked && calls[k].upstream.Ok?
  }

  predicate FetchedFor(calls: seq<Call>, k: nat, key: string)
    requires k < |calls|
  {
    calls[k].key == key && Fetched(calls, k)
  }

  // The last fetch for the key among the first n calls.
  ghost predicate LatestFetch(calls: seq<Call>, n: nat, key: string, f: int)
    requires n <= |calls|
  {
    0 <= f < n && FetchedFor(calls, f, key) && forall k | f < k < n :: !FetchedFor(calls, k, key)
  }

  ghost predicate NeverFetched(calls: seq<Call>, n: nat, key: string)
    requires n <= |calls|
  {
    forall k | 0 <= k < n :: !FetchedFor(calls, k, key)
  }

  // The clock does not go back.
  ghost predicate Monotone(calls: seq<Call>) {
    && (forall i | 0 <= i < |calls| :: calls[i].now <= calls[i].later)
    && forall i, j | 0 <= i < j < |calls| :: calls[i].later <= calls[j].now
  }

  function Holding(calls: seq<Call>, n: nat, key: string): Option<Entry>
    requires n <= |calls|
  {
    if key in CacheAfter(calls[..n]) then Some(CacheAfter(calls[..n])[key]) else None
  }

  // The key's entry is from the call, the last to fetch it.
  ghost predicate CachedFrom(calls: seq<Call>, n: nat, key: string, f: int)
    requires n <= |calls|
  {
    && LatestFetch(calls, n, key, f) && calls[f].upstream.Ok?
    && Holding(calls, n, key) == Some(Entry(calls[f].upstream.value, calls[f].later))
  }

  lemma CacheNext(calls: seq<Call>, n: nat, key: string)
    requires n < |calls|
    ensures FetchedFor(calls, n, key)
            ==> Holding(calls, n + 1, key) == Some(Entry(calls[n].upstream.value, calls[n].later))
    ensures !FetchedFor(calls, n, key) ==> Holding(calls, n + 1, key) == Holding(calls, n, key)
  {
    assert calls[..n + 1][..n] == calls[..n];
  }

  // The cache holds exactly the last fetch for each key.
  lemma {:induction false} CacheIsLatestFetch(calls: seq<Call>, n: nat, key: string)
    requires n <= |calls|
    ensures key !in CacheAfter(calls[..n]) ==> NeverFetched(calls, n, key)
    ensures key in CacheAfter(calls[..n]) ==> exists f :: CachedFrom(calls, n, key, f)
  {
    if n > 0 {
      CacheIsLatestFetch(calls, n - 1, key);
      assert calls[..n][..n - 1] == calls[..n - 1];
      CacheNext(calls, n - 1, key);
      hide CacheAfter, FetchedFor;
      if FetchedFor(calls, n - 1, key) {
        assert CachedFrom(calls, n, key, n - 1);
      } else if key in CacheAfter(calls[..n]) {
        var f :| CachedFrom(calls, n - 1, key, f);
        assert CachedFrom(calls, n, key, f);
      }
    }
  }

  // An answer is that of the last fetch, this call's included. It is younger
  // than the time to live, or Consul was asked just now. An error means that
  // Consul was asked and the key was never fetched.
  lemma AnswersAreLatest(calls: seq<Call>, n: nat)
    requires n < |calls|
    ensures AnswerTo(calls, n).result.Ok? ==> exists f | LatestFetch(calls, n + 1, calls[n].key, f) ::
              && AnswerTo(calls, n).result == calls[f].upstream
              && (AnswerTo(calls, n).asked <==> f == n || calls[n].now - calls[f].later >= calls[n].ttl)
              && (f < n && AnswerTo(calls, n).asked ==> calls[n].upstream.Err?)
    ensures AnswerTo(calls, n).result.Err?
            <==> calls[n].upstream.Err? && NeverFetched(calls, n, calls[n].key)
  {
    var key := calls[n].key;
    CacheIsLatestFetch(calls, n, key);
    if Fetched(calls, n) {
      assert LatestFetch(calls, n + 1, key, n);
    } else if key in CacheAfter(calls[..n]) {
      var f :| CachedFrom(calls, n, key, f);
      assert LatestFetch(calls, n + 1, key, f);
    }
  }

  lemma LatestIsUnique(calls: seq<Call>, n: nat, key: string, f: nat, g: nat)
    requires n <= |calls| && LatestFetch(calls, n, key, f) && LatestFetch(calls, n, key, g)
    ensures f == g
  {
  }

  // Between a fetch and a later call that still finds it, every call for the
  // key past the time to live has asked Consul in vain.
  lemma StaleOnlyWhileFailing(calls: seq<Call>, n: nat, key: string, f: nat, k: nat)
    requires n <= |calls| && LatestFetch(calls, n, key, f) && f < k < n
    requires calls[k].key == key && calls[k].now - calls[f].later >= calls[k].ttl
    ensures AnswerTo(calls, k).asked && calls[k].upstream.Err?
  {
    CacheIsLatestFetch(calls, k, key);
    assert LatestFetch(calls, k, key, f);
    var g :| CachedFrom(calls, k, key, g);
    LatestIsUnique(calls, k, key, f, g);
    assert !FetchedFor(calls, k, key);
  }

  // Two fetches for one key are a time to live apart.
  lemma FetchesAreSpaced(calls: seq<Call>, i: nat, j: nat)
    requires Monotone(calls) && i < j < |calls| && calls[i].key == calls[j].key
    requires Fetched(calls, i) && Fetched(calls, j)
    ensures calls[j].now - calls[i].later >= calls[j].ttl
  {
    var key := calls[j].key;
    CacheIsLatestFetch(calls, j, key);
    assert FetchedFor(calls, i, key);
    var f :| CachedFrom(calls, j, key, f);
    assert i <= f;
    assert calls[i].later <= calls[f].later;
  }
}
