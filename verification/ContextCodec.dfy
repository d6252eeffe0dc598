// The context codec: a request context as string headers, and back.
module ContextCodec {
  import opened Wrappers
  import Text

  datatype ActorType = Unspecified | User | Service | TenantAdmin | System | Guest

  datatype Actor = Actor(id: string, kind: ActorType, roles: seq<string>, attributes: map<string, string>)

  // What the headers carry of a context.
  datatype Context = Context(
    requestId: string,
    traceId: string,
    tenantId: Option<string>,
    userId: Option<string>,
    deviceId: Option<string>,
    platform: Option<string>,
    sessionId: Option<string>,
    actor: Option<Actor>)

  type Headers = map<string, string>

  // The headers with a fixed name; the attributes have one header each.
  datatype Field =
    RequestId | TraceId | TenantId | UserId | DeviceId | Platform | SessionId | ActorId | ActorKind | ActorRoles

  function Name(f: Field): string {
    match f
    case RequestId => "x-request-id"
    case TraceId => "x-trace-id"
    case TenantId => "x-tenant-id"
    case UserId => "x-user-id"
    case DeviceId => "x-device-id"
    case Platform => "x-platform"
    case SessionId => "x-session-id"
    case ActorId => "x-actor-id"
    case ActorKind => "x-actor-type"
    case ActorRoles => "x-actor-roles"
  }

  function AttributeName(key: string): string {
    "x-actor-attr-" + key
  }

  predicate IsAttribute(name: string) {
    |name| >= 13 && name[..13] == "x-actor-attr-"
  }

  function Code(kind: ActorType): nat {
    match kind
    case Unspecified => 0
    case User => 1
    case Service => 2
    case TenantAdmin => 3
    case System => 4
    case Guest => 5
  }

  // Unknown numbers are unspecified.
  function FromCode(code: int): ActorType {
    if code == 1 then User
    else if code == 2 then Service
    else if code == 3 then TenantAdmin
    else if code == 4 then System
    else if code == 5 then Guest
    else Unspecified
  }

  // ---- header names ----

  lemma NamesDiffer(f: Field, g: Field)
    ensures Name(f) == Name(g) ==> f == g
  {
    // Length and third character tell the names apart.
    assert |Name(f)| >= 9 && |Name(g)| >= 9;
    assert |Name(f)| == |Name(g)| && Name(f)[2] == Name(g)[2] ==> f == g;
  }

  lemma AttributesAreApart(f: Field)
    ensures !IsAttribute(Name(f))
  {
    assert |Name(f)| >= 13 ==> Name(f)[..13][8] == Name(f)[8] != 'a';
  }

  lemma AttributeNames(key: string)
    ensures IsAttribute(AttributeName(key)) && AttributeName(key)[13..] == key
  {
  }

  lemma AttributeNamed(name: string)
    requires IsAttribute(name)
    ensures name == AttributeName(name[13..])
  {
  }

  // ---- what each header of a context holds ----

  function NonEmpty(o: Option<string>): Option<string> {
    if o.Some? && o.value == "" then None else o
  }

  // The user id, or else the id of an acting user.
  function UserOf(c: Context): Option<string> {
    if NonEmpty(c.userId).Some? then c.userId
    else if c.actor.Some? && c.actor.value.kind == User then NonEmpty(Some(c.actor.value.id))
    else None
  }

  function Header(c: Context, f: Field): Option<string> {
    match f
    case RequestId => NonEmpty(Some(c.requestId))
    case TraceId => NonEmpty(Some(c.traceId))
    case TenantId => NonEmpty(c.tenantId)
    case UserId => UserOf(c)
    case DeviceId => NonEmpty(c.deviceId)
    case Platform => NonEmpty(c.platform)
    case SessionId => NonEmpty(c.sessionId)
    case ActorId => if c.actor.Some? then NonEmpty(Some(c.actor.value.id)) else None
    case ActorKind =>
      if c.actor.Some? && c.actor.value.kind != Unspecified then Some(Text.Print(Code(c.actor.value.kind))) else None
    case ActorRoles =>
      if c.actor.Some? && c.actor.value.roles != [] then Some(Text.Join(c.actor.value.roles, ',')) else None
  }

  function Attribute(c: Context, key: string): Option<string> {
    if c.actor.Some? && key in c.actor.value.attributes then Some(c.actor.value.attributes[key]) else None
  }

  function Get(headers: Headers, name: string): Option<string> {
    if name in headers then Some(headers[name]) else None
  }

  ghost predicate Known(name: string) {
    IsAttribute(name) || exists f :: Name(f) == name
  }

  // The headers are those of the context and no others.
  ghost predicate Carries(headers: Headers, c: Context) {
    && (forall f :: Get(headers, Name(f)) == Header(c, f))
    && (forall key :: Get(headers, AttributeName(key)) == Attribute(c, key))
    && (forall name | name in headers :: Known(name))
  }

  // Which leaves no choice: encoding does not depend on any iteration order.
  lemma CarriesDetermines(a: Headers, b: Headers, c: Context)
    requires Carries(a, c) && Carries(b, c)
    ensures a == b
  {
    forall name | name in a || name in b ensures Get(a, name) == Get(b, name) {
      assert Known(name);
      if IsAttribute(name) {
        AttributeNamed(name);
        assert Get(a, AttributeName(name[13..])) == Get(b, AttributeName(name[13..]));
      } else {
        var f :| Name(f) == name;
        assert Get(a, Name(f)) == Get(b, Name(f));
      }
    }
    assert forall name | name in a :: Get(a, name).Some? && Get(b, name) == Get(a, name);
    assert forall name | name in b :: Get(b, name).Some? && Get(a, name) == Get(b, name);
  }

  // The headers of a context by their names on the wire. A user id is also that
  // of an acting user.
  lemma EncodedHeaders(headers: Headers, c: Context)
    requires Carries(headers, c)
    ensures Get(headers, "x-request-id") == NonEmpty(Some(c.requestId))
    ensures Get(headers, "x-trace-id") == NonEmpty(Some(c.traceId))
    ensures Get(headers, "x-tenant-id") == NonEmpty(c.tenantId)
    ensures Get(headers, "x-device-id") == NonEmpty(c.deviceId)
    ensures Get(headers, "x-platform") == NonEmpty(c.platform)
    ensures Get(headers, "x-session-id") == NonEmpty(c.sessionId)
    ensures NonEmpty(c.userId).Some? ==> Get(headers, "x-user-id") == c.userId
  {
    assert Get(headers, Name(RequestId)) == Header(c, RequestId) && Get(headers, Name(TraceId)) == Header(c, TraceId);
    assert Get(headers, Name(TenantId)) == Header(c, TenantId) && Get(headers, Name(DeviceId)) == Header(c, DeviceId);
    assert Get(headers, Name(Platform)) == Header(c, Platform) && Get(headers, Name(SessionId)) == Header(c, SessionId);
    assert Get(headers, Name(UserId)) == Header(c, UserId);
    hide Carries, Get;
  }

  lemma EncodedActor(headers: Headers, c: Context, a: Actor, key: string)
    requires Carries(headers, c) && c.actor == Some(a)
    ensures Get(headers, "x-actor-id") == NonEmpty(Some(a.id))
    ensures NonEmpty(c.userId).None? ==>
              Get(headers, "x-user-id") == if a.kind == User then NonEmpty(Some(a.id)) else None
    ensures a.kind == Unspecified <==> Get(headers, "x-actor-type") == None
    ensures a.kind == User <==> Get(headers, "x-actor-type") == Some("1")
    ensures a.kind == Service <==> Get(headers, "x-actor-type") == Some("2")
    ensures a.kind == TenantAdmin <==> Get(headers, "x-actor-type") == Some("3")
    ensures a.kind == System <==> Get(headers, "x-actor-type") == Some("4")
    ensures a.kind == Guest <==> Get(headers, "x-actor-type") == Some("5")
    ensures a.roles != [] ==> Get(headers, "x-actor-roles") == Some(Text.Join(a.roles, ','))
    ensures Get(headers, "x-actor-attr-" + key) == if key in a.attributes then Some(a.attributes[key]) else None
  {
    assert Get(headers, Name(ActorId)) == Header(c, ActorId) && Get(headers, Name(UserId)) == Header(c, UserId);
    assert Get(headers, Name(ActorKind)) == Header(c, ActorKind);
    assert Get(headers, Name(ActorRoles)) == Header(c, ActorRoles);
    assert Get(headers, AttributeName(key)) == Attribute(c, key);
    hide Carries, Get, Text.Join;
  }

  // ---- encoding: the headers built so far carry a context built so far ----

  // The contexts have the same headers, but perhaps for one.
  ghost predicate DifferAt(c: Context, d: Context, f: Field) {
    (forall g | g != f :: Header(c, g) == Header(d, g)) && forall key :: Attribute(c, key) == Attribute(d, key)
  }

  lemma SameHeaders(headers: Headers, c: Context, d: Context, f: Field)
    requires Carries(headers, c) && DifferAt(c, d, f) && Header(c, f) == Header(d, f)
    ensures Carries(headers, d)
  {
  }

  lemma PutField(headers: Headers, c: Context, d: Context, f: Field)
    requires Carries(headers, c) && DifferAt(c, d, f) && Header(d, f).Some?
    ensures Carries(headers[Name(f) := Header(d, f).value], d)
  {
    var more := headers[Name(f) := Header(d, f).value];
    hide Header;
    forall g ensures Get(more, Name(g)) == Header(d, g) {
      NamesDiffer(f, g);
      assert Get(headers, Name(g)) == Header(c, g);
    }
    forall key ensures Get(more, AttributeName(key)) == Attribute(d, key) {
      AttributesAreApart(f);
      AttributeNames(key);
      assert Get(headers, AttributeName(key)) == Attribute(c, key);
    }
  }

  function WithAttributes(c: Context, attributes: map<string, string>): Context
    requires c.actor.Some?
  {
    c.(actor := Some(c.actor.value.(attributes := attributes)))
  }

  lemma PutAttribute(headers: Headers, c: Context, key: string, value: string)
    requires c.actor.Some? && Carries(headers, c)
    ensures Carries(headers[AttributeName(key) := value], WithAttributes(c, c.actor.value.attributes[key := value]))
  {
    var more, d := headers[AttributeName(key) := value], WithAttributes(c, c.actor.value.attributes[key := value]);
    AttributeNames(key);
    forall g ensures Get(more, Name(g)) == Header(d, g) {
      AttributesAreApart(g);
      assert Get(headers, Name(g)) == Header(c, g) == Header(d, g);
    }
    hide Header;
    forall k ensures Get(more, AttributeName(k)) == Attribute(d, k) {
      AttributeNames(k);
      assert Get(headers, AttributeName(k)) == Attribute(c, k);
    }
  }

  // Inserts a header unless its value is absent or empty.
  method Put(headers: Headers, ghost c: Context, ghost d: Context, f: Field, value: Option<string>)
    returns (more: Headers)
    requires Carries(headers, c) && DifferAt(c, d, f) && Header(c, f) == None && Header(d, f) == NonEmpty(value)
    ensures Carries(more, d)
  {
    more := headers;
    if value.Some? && value.value != "" {
      PutField(headers, c, d, f);
      more := more[Name(f) := value.value];
    } else {
      SameHeaders(headers, c, d, f);
    }
  }

  // The first n ids of the context.
  function FirstIds(c: Context, n: nat): Context {
    Context(
      if n >= 1 then c.requestId else "",
      if n >= 2 then c.traceId else "",
      if n >= 3 then c.tenantId else None,
      if n >= 4 then c.userId else None,
      if n >= 5 then c.deviceId else None,
      if n >= 6 then c.platform else None,
      if n >= 7 then c.sessionId else None,
      None)
  }

  // The header and the value of the id that follows the first n.
  function FieldAt(n: nat): Field {
    match n
    case 0 => RequestId
    case 1 => TraceId
    case 2 => TenantId
    case 3 => UserId
    case 4 => DeviceId
    case 5 => Platform
    case _ => SessionId
  }

  function ValueAt(c: Context, n: nat): Option<string> {
    match n
    case 0 => Some(c.requestId)
    case 1 => Some(c.traceId)
    case 2 => c.tenantId
    case 3 => c.userId
    case 4 => c.deviceId
    case 5 => c.platform
    case _ => c.sessionId
  }

  lemma NextId(c: Context, n: nat, f: Field, value: Option<string>)
    requires n < 7 && f == FieldAt(n) && value == ValueAt(c, n)
    ensures DifferAt(FirstIds(c, n), FirstIds(c, n + 1), f)
    ensures Header(FirstIds(c, n), f) == None && Header(FirstIds(c, n + 1), f) == NonEmpty(value)
  {
  }

  method PutId(headers: Headers, ghost c: Context, ghost n: nat, f: Field, value: Option<string>)
    returns (more: Headers)
    requires n < 7 && f == FieldAt(n) && value == ValueAt(c, n)
    requires Carries(headers, FirstIds(c, n))
    ensures Carries(more, FirstIds(c, n + 1))
  {
    NextId(c, n, f, value);
    hide *;
    more := Put(headers, FirstIds(c, n), FirstIds(c, n + 1), f, value);
  }

  method EncodeIds(c: Context) returns (headers: Headers)
    ensures Carries(headers, c.(actor := None))
  {
    headers := map[];
    assert Carries(headers, FirstIds(c, 0));
    assert FirstIds(c, 7) == c.(actor := None);
    hide FirstIds, Carries;
    headers := PutId(headers, c, 0, RequestId, Some(c.requestId));
    headers := PutId(headers, c, 1, TraceId, Some(c.traceId));
    headers := PutId(headers, c, 2, TenantId, c.tenantId);
    headers := PutId(headers, c, 3, UserId, c.userId);
    headers := PutId(headers, c, 4, DeviceId, c.deviceId);
    headers := PutId(headers, c, 5, Platform, c.platform);
    headers := PutId(headers, c, 6, SessionId, c.sessionId);
  }

  function Acting(c: Context, id: string, kind: ActorType, roles: seq<string>): Context {
    c.(actor := Some(Actor(id, kind, roles, map[])))
  }

  lemma ActorSteps(c: Context, a: Actor)
    requires c.actor == Some(a)
    ensures DifferAt(c.(actor := None), Acting(c, a.id, Unspecified, []), ActorId)
    ensures DifferAt(Acting(c, a.id, Unspecified, []), Acting(c.(userId := UserOf(c)), a.id, Unspecified, []), UserId)
    ensures DifferAt(Acting(c.(userId := UserOf(c)), a.id, Unspecified, []), Acting(c, a.id, a.kind, []), ActorKind)
    ensures DifferAt(Acting(c, a.id, a.kind, []), Acting(c, a.id, a.kind, a.roles), ActorRoles)
    ensures Acting(c, a.id, a.kind, a.roles) == WithAttributes(c, map[])
  {
  }

  // The id of the actor, and the user id if there was none.
  method EncodeActorId(headers: Headers, ghost c: Context, a: Actor) returns (more: Headers)
    requires c.actor == Some(a) && Carries(headers, c.(actor := None))
    ensures Carries(more, Acting(c.(userId := UserOf(c)), a.id, Unspecified, []))
  {
    ghost var c0, c1 := c.(actor := None), Acting(c, a.id, Unspecified, []);
    ghost var c2 := Acting(c.(userId := UserOf(c)), a.id, Unspecified, []);
    ActorSteps(c, a);
    more := headers;
    if a.id != "" {
      PutField(more, c0, c1, ActorId);
      more := more[Name(ActorId) := a.id];
      assert Get(more, Name(UserId)) == Header(c1, UserId) == NonEmpty(c.userId);
      hide Carries, DifferAt;
      if a.kind == User && Name(UserId) !in more {
        PutField(more, c1, c2, UserId);
        more := more[Name(UserId) := a.id];
      } else {
        SameHeaders(more, c1, c2, UserId);
      }
    } else {
      hide Carries, DifferAt;
      SameHeaders(more, c0, c1, ActorId);
      SameHeaders(more, c1, c2, UserId);
    }
  }

  method EncodeActor(headers: Headers, ghost c: Context, a: Actor) returns (more: Headers)
    requires c.actor == Some(a) && Carries(headers, c.(actor := None))
    ensures Carries(more, WithAttributes(c, map[]))
  {
    ghost var c2, c3 := Acting(c.(userId := UserOf(c)), a.id, Unspecified, []), Acting(c, a.id, a.kind, []);
    ghost var c4 := Acting(c, a.id, a.kind, a.roles);
    ActorSteps(c, a);
    hide Carries, DifferAt;
    more := EncodeActorId(headers, c, a);
    if a.kind != Unspecified {
      PutField(more, c2, c3, ActorKind);
      more := more[Name(ActorKind) := Text.Print(Code(a.kind))];
    } else {
      SameHeaders(more, c2, c3, ActorKind);
    }
    if a.roles != [] {
      PutField(more, c3, c4, ActorRoles);
      more := more[Name(ActorRoles) := Text.Join(a.roles, ',')];
    } else {
      SameHeaders(more, c3, c4, ActorRoles);
    }
  }

  // One header for each attribute, in whatever order the map yields them.
  method EncodeAttributes(headers: Headers, ghost c: Context, attributes: map<string, string>) returns (more: Headers)
    requires c.actor.Some? && Carries(headers, WithAttributes(c, map[]))
    ensures Carries(more, WithAttributes(c, attributes))
  {
    hide Carries, WithAttributes;
    more := headers;
    var left := attributes.Keys;
    ghost var held: map<string, string> := map[];
    while left != {}
      invariant Carries(more, WithAttributes(c, held))
      invariant left <= attributes.Keys && held.Keys == attributes.Keys - left
      invariant forall k | k in held :: held[k] == attributes[k]
      decreases |left|
    {
      var k :| k in left;
      NextAttribute(more, c, held, k, attributes[k]);
      more, held := more[AttributeName(k) := attributes[k]], held[k := attributes[k]];
      left := left - {k};
    }
    assert held == attributes;
  }

  lemma NextAttribute(headers: Headers, c: Context, held: map<string, string>, key: string, value: string)
    requires c.actor.Some? && Carries(headers, WithAttributes(c, held))
    ensures Carries(headers[AttributeName(key) := value], WithAttributes(c, held[key := value]))
  {
    PutAttribute(headers, WithAttributes(c, held), key, value);
  }

  method CtxToMap(c: Context) returns (headers: Headers)
    ensures Carries(headers, c)
  {
    hide Carries;
    headers := EncodeIds(c);
    if c.actor.Some? {
      headers := EncodeActor(headers, c, c.actor.value);
      headers := EncodeAttributes(headers, c, c.actor.value.attributes);
      assert WithAttributes(c, c.actor.value.attributes) == c;
    } else {
      assert c.(actor := None) == c;
    }
  }

  // ---- decoding ----

  function KindOf(o: Option<string>): ActorType {
    if o.None? then Unspecified
    else
      var code := Text.ParseI32(o.value);
      if code.Some? then FromCode(code.value) else Unspecified
  }

  // The pieces that are more than white space, trimmed.
  function KeepRoles(pieces: seq<string>): seq<string> {
    if pieces == [] then []
    else
      var role := Text.Trim(pieces[|pieces| - 1]);
      KeepRoles(pieces[..|pieces| - 1]) + (if role != "" then [role] else [])
  }

  function RolesOf(o: Option<string>): seq<string> {
    if NonEmpty(o).Some? then KeepRoles(Text.Split(o.value, ',')) else []
  }

  // The roles are the pieces that are not blank, trimmed, in their order.
  lemma {:induction false} RolesKept(pieces: seq<string>) returns (at: seq<nat>, kept: seq<string>)
    ensures Picks(pieces, at, kept) && forall p: nat :: p in at <==> p < |pieces| && !Text.White(pieces[p])
    ensures |KeepRoles(pieces)| == |kept| && forall i | 0 <= i < |kept| :: KeepRoles(pieces)[i] == Text.Trim(kept[i])
  {
    at, kept := [], [];
    if pieces != [] {
      var n := |pieces| - 1;
      at, kept := RolesKept(pieces[..n]);
      PicksOneMore(pieces[..n], at, kept, pieces[n]);
      assert pieces == pieces[..n] + [pieces[n]];
      Text.BlankMeans(pieces[n]);
      hide Text.Trim, Text.White, Picks;
      if Text.Trim(pieces[n]) != "" { at, kept := at + [n], kept + [pieces[n]]; }
    }
  }

  function AttributeKeys(headers: Headers): set<string> {
    set name | name in headers && IsAttribute(name) && headers[name] != "" :: name[13..]
  }

  function AttributesOf(headers: Headers): map<string, string> {
    map key | key in AttributeKeys(headers) && AttributeName(key) in headers :: headers[AttributeName(key)]
  }

  function ActorOf(headers: Headers): Option<Actor> {
    var id := NonEmpty(if Name(ActorId) in headers then Get(headers, Name(ActorId)) else Get(headers, Name(UserId)));
    if id.None? then None
    else
      Some(Actor(id.value, KindOf(Get(headers, Name(ActorKind))), RolesOf(Get(headers, Name(ActorRoles))),
                 AttributesOf(headers)))
  }

  function Or(o: Option<string>, fallback: string): string {
    if o.Some? then o.value else fallback
  }

  // The context of the headers; a missing request id is replaced by a new one.
  function ContextOf(headers: Headers, newId: string): Context {
    Context(
      Or(NonEmpty(Get(headers, Name(RequestId))), newId),
      Or(NonEmpty(Get(headers, Name(TraceId))), ""),
      NonEmpty(Get(headers, Name(TenantId))),
      NonEmpty(Get(headers, Name(UserId))),
      NonEmpty(Get(headers, Name(DeviceId))),
      NonEmpty(Get(headers, Name(Platform))),
      NonEmpty(Get(headers, Name(SessionId))),
      ActorOf(headers))
  }

  // What is read from the headers, by their names on the wire.
  lemma DecodedFields(headers: Headers, newId: string)
    ensures var c := ContextOf(headers, newId);
            && c.requestId == Or(NonEmpty(Get(headers, "x-request-id")), newId)
            && c.traceId == Or(Get(headers, "x-trace-id"), "")
            && c.tenantId == NonEmpty(Get(headers, "x-tenant-id")) && c.userId == NonEmpty(Get(headers, "x-user-id"))
            && c.deviceId == NonEmpty(Get(headers, "x-device-id")) && c.platform == NonEmpty(Get(headers, "x-platform"))
            && c.sessionId == NonEmpty(Get(headers, "x-session-id"))
  {
    hide ActorOf;
  }

  // There is an actor if its id is given and not empty, or if it is not given but
  // a user id is; numbers other than one to five make it unspecified.
  lemma DecodedActor(headers: Headers, newId: string, key: string)
    ensures var actor, given := ContextOf(headers, newId).actor, Get(headers, "x-actor-id");
            && (given == Some("") ==> actor == None)
            && (given.Some? && given != Some("") ==> actor.Some? && actor.value.id == given.value)
            && (given.None? ==> (actor.Some? <==> NonEmpty(Get(headers, "x-user-id")).Some?))
            && (given.None? && actor.Some? ==> Some(actor.value.id) == Get(headers, "x-user-id"))
            && (actor.Some? ==> KindIs(Get(headers, "x-actor-type"), actor.value.kind))
            && (actor.Some? ==>
                  (key in actor.value.attributes <==> NonEmpty(Get(headers, "x-actor-attr-" + key)).Some?)
                  && (key in actor.value.attributes ==>
                        Some(actor.value.attributes[key]) == Get(headers, "x-actor-attr-" + key)))
  {
    AttributeKeyHas(headers, key);
    KindRead(Get(headers, "x-actor-type"));
    hide RolesOf, KindOf, AttributeKeys;
  }

  ghost predicate KindIs(header: Option<string>, kind: ActorType) {
    match kind
    case User => Reads(header, 1)
    case Service => Reads(header, 2)
    case TenantAdmin => Reads(header, 3)
    case System => Reads(header, 4)
    case Guest => Reads(header, 5)
    case Unspecified => !exists n | 1 <= n <= 5 :: Reads(header, n)
  }

  // The header holds the number.
  ghost predicate Reads(header: Option<string>, n: int) {
    header.Some? && Text.ParseI32(header.value) == Some(n)
  }

  lemma KindRead(header: Option<string>)
    ensures KindIs(header, KindOf(header))
  {
    hide Text.ParseI32;
  }

  method DecodeRoles(o: Option<string>) returns (roles: seq<string>)
    ensures roles == RolesOf(o)
  {
    roles := [];
    if o.None? || o.value == "" { return; }
    var pieces := Text.Split(o.value, ',');
    var i := 0;
    while i < |pieces|
      invariant 0 <= i <= |pieces| && roles == KeepRoles(pieces[..i])
    {
      assert pieces[..i + 1][..i] == pieces[..i];
      var role := Text.Trim(pieces[i]);
      if role != "" { roles := roles + [role]; }
      i := i + 1;
    }
    assert pieces[..|pieces|] == pieces;
  }

  lemma AttributeKeyHas(headers: Headers, key: string)
    ensures key in AttributeKeys(headers) <==> AttributeName(key) in headers && headers[AttributeName(key)] != ""
  {
    AttributeNames(key);
    if key in AttributeKeys(headers) {
      var name :| name in headers && IsAttribute(name) && headers[name] != "" && name[13..] == key;
      AttributeNamed(name);
    }
  }

  method DecodeAttributes(headers: Headers) returns (attributes: map<string, string>)
    ensures attributes == AttributesOf(headers)
  {
    attributes := map[];
    var left := headers.Keys;
    while left != {}
      invariant left <= headers.Keys
      invariant forall k :: k in attributes <==>
                  AttributeName(k) in headers && AttributeName(k) !in left && headers[AttributeName(k)] != ""
      invariant forall k | k in attributes :: attributes[k] == headers[AttributeName(k)]
      decreases |left|
    {
      var name :| name in left;
      if IsAttribute(name) && headers[name] != "" {
        AttributeNamed(name);
        attributes := attributes[name[13..] := headers[name]];
      }
      NamedOnly(name);
      left := left - {name};
    }
    forall k ensures k in attributes <==> k in AttributesOf(headers) {
      AttributeKeyHas(headers, k);
    }
  }

  lemma NamedOnly(name: string)
    ensures forall k :: AttributeName(k) == name ==> IsAttribute(name) && k == name[13..]
  {
    forall k | AttributeName(k) == name ensures IsAttribute(name) && k == name[13..] { AttributeNames(k); }
  }

  method DecodeActor(headers: Headers) returns (actor: Option<Actor>)
    ensures actor == ActorOf(headers)
  {
    var id := Get(headers, Name(ActorId));
    if id.None? { id := Get(headers, Name(UserId)); }
    if id.None? || id.value == "" { return None; }
    var a := Actor(id.value, User, [], map[]);
    a := a.(kind := KindOf(Get(headers, Name(ActorKind))));
    var roles := DecodeRoles(Get(headers, Name(ActorRoles)));
    var attributes := DecodeAttributes(headers);
    actor := Some(a.(roles := roles, attributes := attributes));
  }

  method MapToCtx(headers: Headers, newId: string) returns (c: Context)
    ensures c == ContextOf(headers, newId)
  {
    hide Name;
    var requestId := NonEmpty(Get(headers, Name(RequestId)));
    c := Context(if requestId.Some? then requestId.value else newId, "", None, None, None, None, None, None);
    var v := NonEmpty(Get(headers, Name(TraceId)));
    if v.Some? { c := c.(traceId := v.value); }
    v := NonEmpty(Get(headers, Name(TenantId)));
    if v.Some? { c := c.(tenantId := v); }
    v := NonEmpty(Get(headers, Name(UserId)));
    if v.Some? { c := c.(userId := v); }
    v := NonEmpty(Get(headers, Name(DeviceId)));
    if v.Some? { c := c.(deviceId := v); }
    v := NonEmpty(Get(headers, Name(Platform)));
    if v.Some? { c := c.(platform := v); }
    v := NonEmpty(Get(headers, Name(SessionId)));
    if v.Some? { c := c.(sessionId := v); }
    var actor := DecodeActor(headers);
    if actor.Some? { c := c.(actor := actor); }
  }

  // ---- decoding what was encoded ----

  // Roles and attributes as they come back.
  function RolesBack(roles: seq<string>): seq<string> {
    if roles == [] then [] else RolesOf(Some(Text.Join(roles, ',')))
  }

  function AttributesBack(attributes: map<string, string>): map<string, string> {
    map k | k in attributes && attributes[k] != "" :: attributes[k]
  }

  // Empty ids are dropped. An actor comes back under its id or else the user
  // id, and a user id without an actor comes back with one.
  function ActorBack(c: Context): Option<Actor> {
    if c.actor.Some? && c.actor.value.id != "" then
      var a := c.actor.value;
      Some(Actor(a.id, a.kind, RolesBack(a.roles), AttributesBack(a.attributes)))
    else if NonEmpty(c.userId).None? then None
    else if c.actor.Some? then
      var a := c.actor.value;
      Some(Actor(c.userId.value, a.kind, RolesBack(a.roles), AttributesBack(a.attributes)))
    else Some(Actor(c.userId.value, Unspecified, [], map[]))
  }

  function Normalize(c: Context, newId: string): Context {
    Context(
      if c.requestId != "" then c.requestId else newId,
      c.traceId,
      NonEmpty(c.tenantId),
      UserOf(c),
      NonEmpty(c.deviceId),
      NonEmpty(c.platform),
      NonEmpty(c.sessionId),
      ActorBack(c))
  }

  lemma KindBack(kind: ActorType)
    ensures KindOf(Some(Text.Print(Code(kind)))) == kind
  {
    Text.ParsePrint(Code(kind));
  }

  lemma AttributesComeBack(headers: Headers, c: Context)
    requires Carries(headers, c)
    ensures AttributesOf(headers) == if c.actor.Some? then AttributesBack(c.actor.value.attributes) else map[]
  {
    var back := if c.actor.Some? then AttributesBack(c.actor.value.attributes) else map[];
    forall k ensures k in AttributesOf(headers) <==> k in back {
      AttributeKeyHas(headers, k);
      assert Get(headers, AttributeName(k)) == Attribute(c, k);
    }
    forall k | k in back ensures AttributesOf(headers)[k] == back[k] {
      assert Get(headers, AttributeName(k)) == Attribute(c, k);
    }
  }

  lemma ActorComesBack(headers: Headers, c: Context)
    requires Carries(headers, c)
    ensures ActorOf(headers) == ActorBack(c)
  {
    AttributesComeBack(headers, c);
    ActorHeaders(headers, c);
    hide Carries, Name, KindOf, RolesOf, AttributesOf, AttributesBack, Header, Get, RolesBack;
  }

  // What the decoder finds in the actor's headers.
  lemma ActorHeaders(headers: Headers, c: Context)
    requires Carries(headers, c)
    ensures Name(ActorId) in headers <==> c.actor.Some? && c.actor.value.id != ""
    ensures Get(headers, Name(ActorId)) == if c.actor.Some? then NonEmpty(Some(c.actor.value.id)) else None
    ensures Get(headers, Name(UserId)) == UserOf(c)
    ensures KindOf(Get(headers, Name(ActorKind))) == if c.actor.Some? then c.actor.value.kind else Unspecified
    ensures RolesOf(Get(headers, Name(ActorRoles))) == if c.actor.Some? then RolesBack(c.actor.value.roles) else []
  {
    if c.actor.Some? { KindBack(c.actor.value.kind); }
    assert Get(headers, Name(ActorId)) == Header(c, ActorId);
    assert Get(headers, Name(UserId)) == Header(c, UserId);
    assert Get(headers, Name(ActorKind)) == Header(c, ActorKind);
    assert Get(headers, Name(ActorRoles)) == Header(c, ActorRoles);
    hide Carries, Name, Code, Text.Print, Text.Join, KeepRoles, Text.Split, Text.ParseI32;
  }

  // Decoding what was encoded normalizes the context.
  lemma EncodedDecodes(headers: Headers, c: Context, newId: string)
    requires Carries(headers, c)
    ensures ContextOf(headers, newId) == Normalize(c, newId)
  {
    ActorComesBack(headers, c);
    hide ActorOf, ActorBack, Name;
  }

  // ---- which contexts come back unchanged ----

  ghost predicate GoodRoles(roles: seq<string>) {
    forall r | r in roles :: r != "" && Text.Trimmed(r) && ',' !in r
  }

  lemma {:induction false} KeptAreGood(pieces: seq<string>)
    requires Text.Free(',', pieces)
    ensures GoodRoles(KeepRoles(pieces))
  {
    if pieces != [] {
      KeptAreGood(pieces[..|pieces| - 1]);
      Text.TrimIsTrimmed(pieces[|pieces| - 1]);
    }
  }

  lemma {:induction false} GoodAreKept(roles: seq<string>)
    requires GoodRoles(roles)
    ensures KeepRoles(roles) == roles && Text.Free(',', roles)
  {
    if roles != [] {
      var front := roles[..|roles| - 1];
      assert roles == front + [roles[|roles| - 1]];
      assert forall r | r in front :: r in roles;
      GoodAreKept(front);
      Text.TrimIsTrimmed(roles[|roles| - 1]);
    }
  }

  lemma RolesComeBack(roles: seq<string>)
    ensures GoodRoles(RolesBack(roles))
    ensures RolesBack(roles) == roles <==> GoodRoles(roles)
  {
    if roles != [] {
      var joined := Text.Join(roles, ',');
      Text.SplitIsFree(joined, ',');
      KeptAreGood(Text.Split(joined, ','));
      if GoodRoles(roles) {
        GoodAreKept(roles);
        Text.SplitJoin(roles, ',');
        assert roles[0] in roles;
      }
    }
  }

  ghost predicate NormalActor(c: Context, a: Actor) {
    && a.id != "" && (a.kind == User ==> c.userId.Some?)
    && GoodRoles(a.roles) && forall k | k in a.attributes :: a.attributes[k] != ""
  }

  ghost predicate Normal(c: Context) {
    && c.requestId != ""
    && c.tenantId != Some("") && c.userId != Some("") && c.deviceId != Some("") && c.platform != Some("")
    && c.sessionId != Some("")
    && (c.userId.Some? ==> c.actor.Some?)
    && (c.actor.Some? ==> NormalActor(c, c.actor.value))
  }

  lemma NormalizeIsNormal(c: Context, newId: string)
    requires newId != ""
    ensures Normal(Normalize(c, newId))
  {
    if c.actor.Some? { RolesComeBack(c.actor.value.roles); }
    hide RolesBack;
  }

  lemma NormalActorFixed(c: Context)
    requires c.actor.Some? && c.actor.value.id != ""
    ensures ActorBack(c) == c.actor
            <==> GoodRoles(c.actor.value.roles)
                 && forall k | k in c.actor.value.attributes :: c.actor.value.attributes[k] != ""
  {
    var a := c.actor.value;
    RolesComeBack(a.roles);
    hide RolesBack, GoodRoles;
    if AttributesBack(a.attributes) == a.attributes {
      forall k | k in a.attributes ensures a.attributes[k] != "" { assert k in AttributesBack(a.attributes); }
    }
  }

  lemma NormalizeFixes(c: Context, newId: string)
    requires newId != ""
    ensures Normalize(c, newId) == c <==> Normal(c)
  {
    if c.actor.Some? && c.actor.value.id != "" { NormalActorFixed(c); }
    hide RolesBack, AttributesBack, GoodRoles;
  }

  // A context survives the headers exactly when it is in normal form.
  lemma RoundTrip(headers: Headers, c: Context, newId: string)
    requires newId != "" && Carries(headers, c)
    ensures ContextOf(headers, newId) == c <==> Normal(c)
  {
    EncodedDecodes(headers, c, newId);
    NormalizeFixes(c, newId);
  }

  // Whatever went through the headers once goes through them unchanged.
  lemma SecondTripChangesNothing(headers: Headers, c: Context, newId: string, again: Headers, otherId: string)
    requires newId != "" && otherId != "" && Carries(headers, c) && Carries(again, ContextOf(headers, newId))
    ensures ContextOf(again, otherId) == ContextOf(headers, newId)
  {
    EncodedDecodes(headers, c, newId);
    NormalizeIsNormal(c, newId);
    RoundTrip(again, ContextOf(headers, newId), otherId);
  }
}
