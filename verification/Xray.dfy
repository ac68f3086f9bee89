/** JSON values, the remote-access inbound and what it grants, and the part of the config
    builder that the remote-access feature owns. */
module Xray {
  import opened Basics

  /** Object keys: a constructor for each name the code below reads or writes, and `KOther` for
      every other name. */
  datatype Key =
    | KInbounds | KOutbounds | KDns | KHosts | KRouting | KRules
    | KInboundTag | KOutboundTag | KDomain | KIp | KType | KTag
    | KListen | KPort | KProtocol | KSettings | KClients | KId
    | KFlow | KEmail | KDecryption | KStreamSettings | KNetwork | KSecurity
    | KRealitySettings | KShow | KDest | KXver | KServerNames | KPrivateKey
    | KShortIds | KSniffing | KEnabled | KDestOverride | KRouteOnly | KDomainStrategy
    | KSockopt | KMark
    | KOther(name: string)

  datatype Json =
    | Null
    | Bool(b: bool)
    | Num(n: int)
    | Str(s: string)
    | Arr(items: seq<Json>)
    | Obj(fields: map<Key, Json>)

  /** Python's `j.get(key)` on a dict; an absent key, an explicit null and a value that is not
      an object all read as null, which is how every caller treats them. */
  function Get(j: Json, key: Key): Json {
    if j.Obj? && key in j.fields then j.fields[key] else Null
  }

  function Filter<T>(keep: T -> bool, xs: seq<T>): seq<T> {
    if xs == [] then []
    else (if keep(xs[0]) then [xs[0]] else []) + Filter(keep, xs[1..])
  }

  function Strs(xs: seq<string>): seq<Json> {
    seq(|xs|, i requires 0 <= i < |xs| => Str(xs[i]))
  }

  // ----- the remote-access inbound ---------------------------------------------------------

  const RW_TAG := "rw-in"
  const LAN_TAG := "direct-lan"

  datatype Client = Client(id: string, email: string)

  /** What `resolve()` returns when the store grants remote access. `hostNames` is
      `sorted(hosts)`. */
  datatype RwInbound = RwInbound(
    port: int, dest: string, serverNames: seq<string>, privateKey: string,
    shortIds: seq<string>, clients: seq<Client>,
    hosts: map<string, string>, hostNames: seq<string>)

  function ClientJson(c: Client): Json {
    Obj(map[KId := Str(c.id), KFlow := Str("xtls-rprx-vision"), KEmail := Str(c.email)])
  }

  function ClientsJson(clients: seq<Client>): Json {
    Arr(seq(|clients|, i requires 0 <= i < |clients| => ClientJson(clients[i])))
  }

  function RwSettings(rw: RwInbound): Json {
    Obj(map[KClients := ClientsJson(rw.clients), KDecryption := Str("none")])
  }

  function RwReality(rw: RwInbound): Json {
    Obj(map[
      KShow := Bool(false),
      KDest := Str(rw.dest),
      KXver := Num(0),
      KServerNames := Arr(Strs(rw.serverNames)),
      KPrivateKey := Str(rw.privateKey),
      KShortIds := Arr(Strs(rw.shortIds))])
  }

  function RwStream(rw: RwInbound): Json {
    Obj(map[
      KNetwork := Str("tcp"),
      KSecurity := Str("reality"),
      KRealitySettings := RwReality(rw)])
  }

  function RwSniffing(): Json {
    Obj(map[
      KEnabled := Bool(true),
      KDestOverride := Arr(Strs(["http", "tls", "quic"])),
      KRouteOnly := Bool(true)])
  }

  function RwBlock(rw: RwInbound): Json {
    Obj(map[
      KTag := Str(RW_TAG),
      KListen := Str("0.0.0.0"),
      KPort := Num(rw.port),
      KProtocol := Str("vless"),
      KSettings := RwSettings(rw),
      KStreamSettings := RwStream(rw),
      KSniffing := RwSniffing()])
  }

  // ----- grants ----------------------------------------------------------------------------

  /** The name spaces of grants; the `Bad` ones hold a field of the wrong shape. */
  datatype Space =
    | Port | PrivateKey | Dest | ClientId | ShortId | ServerName
    | BadClients | BadShortIds | BadServerNames

  /** One namespaced thing a block hands out. */
  datatype Token = Token(space: Space, value: Json)

  function ListTokens(space: Space, wrongShape: Space, v: Json): set<Token> {
    if v.Arr? then set x | x in v.items :: Token(space, x) else {Token(wrongShape, v)}
  }

  function ClientTokens(clients: Json): set<Token> {
    if clients.Arr? then set c | c in clients.items :: Token(ClientId, if c.Obj? then Get(c, KId) else c)
    else {Token(BadClients, clients)}
  }

  /** Everything a block grants. A field of the wrong shape yields a token no block the store
      resolves to can carry. */
  function Grants(block: Json): set<Token> {
    if !block.Obj? then {}
    else
      var reality := Get(Get(block, KStreamSettings), KRealitySettings);
      {Token(Port, Get(block, KPort)),
       Token(PrivateKey, Get(reality, KPrivateKey)),
       Token(Dest, Get(reality, KDest))}
      + ClientTokens(Get(Get(block, KSettings), KClients))
      + ListTokens(ShortId, BadShortIds, Get(reality, KShortIds))
      + ListTokens(ServerName, BadServerNames, Get(reality, KServerNames))
  }

  /** What the store grants: nothing when no inbound may be emitted. */
  function Granted(rw: Option<RwInbound>): set<Token> {
    if rw.Some? then Grants(RwBlock(rw.value)) else {}
  }

  predicate IsRw(inbound: Json) {
    inbound.Obj? && Get(inbound, KTag) == Str(RW_TAG)
  }

  /** What a config would hand out if it were served. */
  function LiveGrants(cfg: Json): set<Token> {
    var inbounds := Get(cfg, KInbounds);
    if inbounds.Arr? then set i, t | i in inbounds.items && IsRw(i) && t in Grants(i) :: t else {}
  }

  predicate Excess(rw: Option<RwInbound>, cfg: Json) {
    LiveGrants(cfg) - Granted(rw) != {}
  }

  /** An object whose `inbounds` is a list of objects: a config that can be reasoned about. */
  predicate Shaped(cfg: Json) {
    var inbounds := Get(cfg, KInbounds);
    inbounds.Arr? && forall i :: i in inbounds.items ==> i.Obj?
  }

  lemma ClientTokensExactly(clients: seq<Client>)
    ensures ClientTokens(ClientsJson(clients)) == set c | c in clients :: Token(ClientId, Str(c.id))
  {
    var cs := ClientsJson(clients).items;
    var want := set c | c in clients :: Token(ClientId, Str(c.id));
    forall c | c in clients ensures Token(ClientId, Str(c.id)) in ClientTokens(Arr(cs)) {
      var i :| 0 <= i < |clients| && clients[i] == c;
      assert cs[i] in cs && cs[i] == ClientJson(c);
    }
    forall j | j in cs ensures j.Obj? && Token(ClientId, Get(j, KId)) in want {
      var i :| 0 <= i < |cs| && cs[i] == j;
      assert j == ClientJson(clients[i]) && clients[i] in clients;
    }
  }

  /** The grants of a resolved block, spelled out: one token for each credential the store holds
      and no other. */
  lemma BlockGrantsExactly(rw: RwInbound)
    ensures Granted(Some(rw)) ==
            {Token(Port, Num(rw.port)), Token(PrivateKey, Str(rw.privateKey)), Token(Dest, Str(rw.dest))}
            + (set c | c in rw.clients :: Token(ClientId, Str(c.id)))
            + (set s | s in rw.shortIds :: Token(ShortId, Str(s)))
            + (set n | n in rw.serverNames :: Token(ServerName, Str(n)))
  {
    BlockFields(rw);
    ClientTokensExactly(rw.clients);
    StrTokens(ShortId, BadShortIds, rw.shortIds);
    StrTokens(ServerName, BadServerNames, rw.serverNames);
  }

  lemma BlockFields(rw: RwInbound)
    ensures var block := RwBlock(rw);
            var reality := Get(Get(block, KStreamSettings), KRealitySettings);
            && Get(block, KPort) == Num(rw.port)
            && Get(Get(block, KSettings), KClients) == ClientsJson(rw.clients)
            && Get(reality, KPrivateKey) == Str(rw.privateKey)
            && Get(reality, KDest) == Str(rw.dest)
            && Get(reality, KShortIds) == Arr(Strs(rw.shortIds))
            && Get(reality, KServerNames) == Arr(Strs(rw.serverNames))
  {
    assert Get(RwBlock(rw), KSettings) == RwSettings(rw);
    assert Get(RwBlock(rw), KStreamSettings) == RwStream(rw);
    assert Get(RwStream(rw), KRealitySettings) == RwReality(rw);
  }

  lemma StrTokens(space: Space, wrongShape: Space, xs: seq<string>)
    ensures ListTokens(space, wrongShape, Arr(Strs(xs))) == set x | x in xs :: Token(space, Str(x))
  {
    var js := Strs(xs);
    forall x | x in xs ensures Str(x) in js {
      var i :| 0 <= i < |xs| && xs[i] == x;
      assert js[i] == Str(x);
    }
    forall j | j in js ensures j.Str? && j.s in xs {
      var i :| 0 <= i < |js| && js[i] == j;
      assert j == Str(xs[i]);
    }
  }

  // ----- what counts as granting more ------------------------------------------------------

  /** An entry of a client list as it is compared: its id, or itself. */
  function IdOf(c: Json): Json {
    if c.Obj? then Get(c, KId) else c
  }

  predicate ListGrants(v: Json, x: Json) {
    v.Arr? && x in v.items
  }

  ghost predicate ClientsGrant(v: Json, x: Json) {
    v.Arr? && exists c :: c in v.items && IdOf(c) == x
  }

  /** What a block grants, name space by name space. */
  lemma GrantsBySpace(block: Json, t: Token)
    requires block.Obj?
    ensures var reality := Get(Get(block, KStreamSettings), KRealitySettings);
            var clients := Get(Get(block, KSettings), KClients);
            t in Grants(block) <==>
            match t.space
            case Port => t.value == Get(block, KPort)
            case PrivateKey => t.value == Get(reality, KPrivateKey)
            case Dest => t.value == Get(reality, KDest)
            case ClientId => ClientsGrant(clients, t.value)
            case BadClients => !clients.Arr? && t.value == clients
            case ShortId => ListGrants(Get(reality, KShortIds), t.value)
            case BadShortIds => !Get(reality, KShortIds).Arr? && t.value == Get(reality, KShortIds)
            case ServerName => ListGrants(Get(reality, KServerNames), t.value)
            case BadServerNames => !Get(reality, KServerNames).Arr? && t.value == Get(reality, KServerNames)
  {
    var reality := Get(Get(block, KStreamSettings), KRealitySettings);
    ListBySpace(ShortId, BadShortIds, Get(reality, KShortIds), t);
    ListBySpace(ServerName, BadServerNames, Get(reality, KServerNames), t);
    ClientsBySpace(Get(Get(block, KSettings), KClients), t);
  }

  lemma ListBySpace(space: Space, wrongShape: Space, v: Json, t: Token)
    requires space != wrongShape
    ensures t in ListTokens(space, wrongShape, v) <==>
            if v.Arr? then t.space == space && t.value in v.items else t == Token(wrongShape, v)
  {
    if v.Arr? && t.space == space && t.value in v.items { assert t == Token(space, t.value); }
  }

  lemma ClientsBySpace(v: Json, t: Token)
    ensures t in ClientTokens(v) <==>
            if v.Arr? then t.space == ClientId && ClientsGrant(v, t.value) else t == Token(BadClients, v)
  {
    if v.Arr? && t.space == ClientId && ClientsGrant(v, t.value) {
      var c :| c in v.items && IdOf(c) == t.value;
      assert t == Token(ClientId, IdOf(c));
    }
  }

  /** Every entry is one of `xs`, as a string. */
  ghost predicate AllAmong(v: Json, xs: seq<string>) {
    v.Arr? && forall x :: x in v.items ==> x.Str? && x.s in xs
  }

  ghost predicate ClientsAmong(v: Json, clients: seq<Client>) {
    v.Arr? && forall c :: c in v.items ==> exists k :: k in clients && IdOf(c) == Str(k.id)
  }

  /** A token of the store's own inbound. */
  ghost predicate IsStored(rw: RwInbound, t: Token) {
    match t.space
    case Port => t.value == Num(rw.port)
    case PrivateKey => t.value == Str(rw.privateKey)
    case Dest => t.value == Str(rw.dest)
    case ClientId => exists k :: k in rw.clients && t.value == Str(k.id)
    case ShortId => t.value.Str? && t.value.s in rw.shortIds
    case ServerName => t.value.Str? && t.value.s in rw.serverNames
    case _ => false
  }

  lemma StoredTokens(rw: RwInbound, t: Token)
    ensures t in Granted(Some(rw)) <==> IsStored(rw, t)
  {
    BlockFields(rw);
    GrantsBySpace(RwBlock(rw), t);
    ClientTokensExactly(rw.clients);
    ClientsBySpace(ClientsJson(rw.clients), t);
    StrTokens(ShortId, BadShortIds, rw.shortIds);
    StrTokens(ServerName, BadServerNames, rw.serverNames);
    StrsMember(rw.shortIds, t.value);
    StrsMember(rw.serverNames, t.value);
  }

  lemma StrsMember(xs: seq<string>, j: Json)
    ensures j in Strs(xs) <==> j.Str? && j.s in xs
  {
    if j.Str? && j.s in xs {
      var i :| 0 <= i < |xs| && xs[i] == j.s;
      assert Strs(xs)[i] == j;
    }
  }

  /** It listens on the stored port with the stored key and destination, and lists only stored clients,
      short ids and names. */
  ghost predicate WithinParts(block: Json, rw: RwInbound) {
    var reality := Get(Get(block, KStreamSettings), KRealitySettings);
    && Get(block, KPort) == Num(rw.port)
    && Get(reality, KPrivateKey) == Str(rw.privateKey) && Get(reality, KDest) == Str(rw.dest)
    && ClientsAmong(Get(Get(block, KSettings), KClients), rw.clients)
    && AllAmong(Get(reality, KShortIds), rw.shortIds)
    && AllAmong(Get(reality, KServerNames), rw.serverNames)
  }

  /** A config grants nothing the store does not exactly if every remote-access inbound in it is one
      the store has, part by part; a field of another shape never passes. */
  lemma NoExcessExactly(rw: Option<RwInbound>, cfg: Json)
    requires Shaped(cfg)
    ensures !Excess(rw, cfg) <==>
            forall i :: i in Get(cfg, KInbounds).items && IsRw(i) ==> rw.Some? && WithinParts(i, rw.value)
  {
    var ins := Get(cfg, KInbounds).items;
    forall i | i in ins && IsRw(i)
      ensures Grants(i) <= Granted(rw) <==> rw.Some? && WithinParts(i, rw.value)
    {
      if rw.Some? {
        BlockWithinExactly(i, rw.value);
      } else {
        assert Token(Port, Get(i, KPort)) in Grants(i);
      }
    }
    assert Excess(rw, cfg) <==> exists i :: i in ins && IsRw(i) && !(Grants(i) <= Granted(rw)) by {
      ExcessIn(rw, cfg);
    }
  }

  lemma ExcessIn(rw: Option<RwInbound>, cfg: Json)
    requires Shaped(cfg)
    ensures Excess(rw, cfg) <==> exists i :: i in Get(cfg, KInbounds).items && IsRw(i) && !(Grants(i) <= Granted(rw))
  {
    var more := LiveGrants(cfg) - Granted(rw);
    if more != {} {
      var t :| t in more;
      var i :| i in Get(cfg, KInbounds).items && IsRw(i) && t in Grants(i);
      assert !(Grants(i) <= Granted(rw));
    }
    if exists i :: i in Get(cfg, KInbounds).items && IsRw(i) && !(Grants(i) <= Granted(rw)) {
      var i :| i in Get(cfg, KInbounds).items && IsRw(i) && !(Grants(i) <= Granted(rw));
      var t :| t in Grants(i) && t !in Granted(rw);
      assert t in more;
    }
  }

  lemma BlockWithinExactly(block: Json, rw: RwInbound)
    requires block.Obj?
    ensures Grants(block) <= Granted(Some(rw)) <==> WithinParts(block, rw)
  {
    if Grants(block) <= Granted(Some(rw)) { WithinMeans(block, rw); }
    forall t | t in Grants(block)
      ensures WithinParts(block, rw) ==> t in Granted(Some(rw))
    {
      GrantsBySpace(block, t);
      StoredTokens(rw, t);
    }
  }

  lemma WithinMeans(block: Json, rw: RwInbound)
    requires block.Obj? && Grants(block) <= Granted(Some(rw))
    ensures WithinParts(block, rw)
  {
    var reality := Get(Get(block, KStreamSettings), KRealitySettings);
    var clients := Get(Get(block, KSettings), KClients);
    Follows(block, rw, Token(Port, Get(block, KPort)));
    Follows(block, rw, Token(PrivateKey, Get(reality, KPrivateKey)));
    Follows(block, rw, Token(Dest, Get(reality, KDest)));
    Follows(block, rw, Token(BadClients, clients));
    Follows(block, rw, Token(BadShortIds, Get(reality, KShortIds)));
    Follows(block, rw, Token(BadServerNames, Get(reality, KServerNames)));
    forall c | clients.Arr? && c in clients.items ensures exists k :: k in rw.clients && IdOf(c) == Str(k.id) {
      Follows(block, rw, Token(ClientId, IdOf(c)));
    }
    forall x | x in Get(reality, KShortIds).items ensures x.Str? && x.s in rw.shortIds {
      Follows(block, rw, Token(ShortId, x));
    }
    forall x | x in Get(reality, KServerNames).items ensures x.Str? && x.s in rw.serverNames {
      Follows(block, rw, Token(ServerName, x));
    }
  }

  lemma Follows(block: Json, rw: RwInbound, t: Token)
    requires block.Obj? && Grants(block) <= Granted(Some(rw))
    ensures t in Grants(block) ==> IsStored(rw, t)
  {
    StoredTokens(rw, t);
  }

  // ----- what the builder emits for the feature --------------------------------------------

  function LanOutbound(mark: int): Json {
    Obj(map[KTag := Str(LAN_TAG), KProtocol := Str("freedom"),
            KSettings := Obj(map[KDomainStrategy := Str("UseIP")]),
            KStreamSettings := Obj(map[KSockopt := Obj(map[KMark := Num(mark)])])])
  }

  function LanRule(names: seq<string>): Json {
    Obj(map[KType := Str("field"),
            KDomain := Arr(seq(|names|, i requires 0 <= i < |names| => Str("full:" + names[i]))),
            KOutboundTag := Str(LAN_TAG)])
  }

  function HostsJson(hosts: map<string, string>): Json {
    Obj(map name | name in hosts :: KOther(name) := Str(hosts[name]))
  }

  function LoopbackNets(): Json {
    Arr(Strs(["0.0.0.0/8", "127.0.0.0/8", "169.254.0.0/16", "::/128", "::1/128", "fe80::/10"]))
  }

  function LoopbackRule(clientFacing: seq<string>): Json {
    Obj(map[KType := Str("field"),
            KInboundTag := Arr(Strs(clientFacing)),
            KIp := LoopbackNets(),
            KOutboundTag := Str("block")])
  }

  predicate IsLanRule(rule: Json) {
    rule.Obj? && Get(rule, KOutboundTag) == Str(LAN_TAG)
  }

  predicate IsLanOutbound(o: Json) {
    o.Obj? && Get(o, KTag) == Str(LAN_TAG)
  }

  /** A node's config before the remote-access feature is added: what the builder has assembled
      from the node, its tuning profile, the routing rules and the statistics settings. */
  datatype Base = Base(
    node: int, rest: map<Key, Json>, dns: map<Key, Json>, routing: map<Key, Json>,
    inbounds: seq<Json>, outbounds: seq<Json>, rules: seq<Json>, clientFacing: seq<string>)

  predicate MentionsRw(rule: Json) {
    var tags := Get(rule, KInboundTag);
    tags.Arr? && Str(RW_TAG) in tags.items
  }

  /** What the builder guarantees of that stage: the fragments the feature owns are not there
      yet, the first outbound is the node's, and the rule list ends in a catch-all. */
  predicate BaseOk(b: Base) {
    && KInbounds !in b.rest && KOutbounds !in b.rest && KDns !in b.rest && KRouting !in b.rest
    && KHosts !in b.dns && KRules !in b.routing
    && (forall i :: i in b.inbounds ==> i.Obj? && !IsRw(i))
    && (forall o :: o in b.outbounds ==> !IsLanOutbound(o))
    && (forall r :: r in b.rules ==> !IsLanRule(r) && !MentionsRw(r))
    && b.rules != []
    && b.clientFacing != [] && RW_TAG !in b.clientFacing
    && b.outbounds != [] && b.outbounds[0] == ProxyOutbound(b.node)
  }

  /** The node's outbound; the node id stands for its address, credential and transport. */
  function ProxyOutbound(node: int): Json {
    Obj(map[KTag := Str("proxy"), KSettings := Num(node)])
  }

  /** A config whose traffic leaves through `node`. */
  predicate Names(cfg: Json, node: int) {
    var outs := Get(cfg, KOutbounds);
    outs.Arr? && outs.items != [] && outs.items[0] == ProxyOutbound(node)
  }

  function InsertBeforeLast(rules: seq<Json>, rule: Json): seq<Json>
    requires rules != []
  {
    rules[..|rules| - 1] + [rule] + rules[|rules| - 1..]
  }

  predicate MapsHosts(rw: Option<RwInbound>) {
    rw.Some? && rw.value.hosts != map[]
  }

  function BuildDns(b: Base, rw: Option<RwInbound>): Json {
    Obj(if MapsHosts(rw) then b.dns[KHosts := HostsJson(rw.value.hosts)] else b.dns)
  }

  function BuildRules(b: Base, rw: Option<RwInbound>): seq<Json>
    requires BaseOk(b)
  {
    [LoopbackRule(b.clientFacing + (if rw.Some? then [RW_TAG] else []))]
    + (if MapsHosts(rw) then InsertBeforeLast(b.rules, LanRule(rw.value.hostNames)) else b.rules)
  }

  /** The first rule a build emits blocks the gateway's own addresses for every client-facing inbound,
      the remote-access one among them while there is one. */
  lemma LoopbackBlocked(b: Base, rw: Option<RwInbound>, tag: string)
    requires BaseOk(b)
    ensures var first := BuildRules(b, rw)[0];
            && Get(first, KOutboundTag) == Str("block")
            && Get(first, KInboundTag).Arr? && Get(first, KIp).Arr?
            && (Str(tag) in Get(first, KInboundTag).items <==> tag in b.clientFacing || (rw.Some? && tag == "rw-in"))
            && Str("127.0.0.0/8") in Get(first, KIp).items && Str("::1/128") in Get(first, KIp).items
  {
    var tags := b.clientFacing + (if rw.Some? then [RW_TAG] else []);
    var nets := ["0.0.0.0/8", "127.0.0.0/8", "169.254.0.0/16", "::/128", "::1/128", "fe80::/10"];
    var first := LoopbackRule(tags);
    assert BuildRules(b, rw)[0] == first;
    assert Get(first, KInboundTag) == Arr(Strs(tags)) && Get(first, KIp) == Arr(Strs(nets));
    StrsMember(tags, Str(tag));
    assert Strs(nets)[1] == Str("127.0.0.0/8") && Strs(nets)[4] == Str("::1/128");
  }

  function BuildConfig(b: Base, rw: Option<RwInbound>, mark: int): Json
    requires BaseOk(b)
  {
    Obj(b.rest
        [KInbounds := Arr(WithBlock(b.inbounds, rw))]
        [KOutbounds := Arr(b.outbounds + (if MapsHosts(rw) then [LanOutbound(mark)] else []))]
        [KDns := BuildDns(b, rw)]
        [KRouting := Obj(b.routing[KRules := Arr(BuildRules(b, rw))])])
  }

  function WithBlock(inbounds: seq<Json>, rw: Option<RwInbound>): seq<Json> {
    inbounds + (if rw.Some? then [RwBlock(rw.value)] else [])
  }

  lemma BlockIsRw(rw: RwInbound)
    ensures IsRw(RwBlock(rw))
  {
    assert Get(RwBlock(rw), KTag) == Str(RW_TAG);
  }

  /** Appending the resolved block to inbounds that carry none grants exactly what the store
      grants. */
  lemma AppendedBlockGrants(cfg: Json, inbounds: seq<Json>, rw: Option<RwInbound>)
    requires Get(cfg, KInbounds) == Arr(WithBlock(inbounds, rw))
    requires forall i :: i in inbounds ==> !IsRw(i)
    ensures LiveGrants(cfg) == Granted(rw)
  {
    var ins := WithBlock(inbounds, rw);
    if rw.Some? {
      var block := RwBlock(rw.value);
      BlockIsRw(rw.value);
      assert ins[|ins| - 1] == block;
      assert forall i :: i in ins && IsRw(i) ==> i == block;
      assert LiveGrants(cfg) == Grants(block);
    } else {
      assert ins == inbounds;
    }
  }

  /** `cfg` holds, key by key, what a build of `b` holds. */
  ghost predicate BuiltAs(b: Base, rw: Option<RwInbound>, mark: int, cfg: Json)
    requires BaseOk(b)
  {
    && cfg.Obj?
    && Get(cfg, KInbounds) == Arr(WithBlock(b.inbounds, rw))
    && Get(cfg, KOutbounds) == Arr(b.outbounds + (if MapsHosts(rw) then [LanOutbound(mark)] else []))
    && Get(cfg, KDns) == BuildDns(b, rw)
    && Get(cfg, KRouting) == Obj(b.routing[KRules := Arr(BuildRules(b, rw))])
    && (forall k :: k !in {KInbounds, KOutbounds, KDns, KRouting} ==> Get(cfg, k) == Get(Obj(b.rest), k))
    && cfg.fields.Keys == b.rest.Keys + {KInbounds, KOutbounds, KDns, KRouting}
  }

  lemma BuildFields(b: Base, rw: Option<RwInbound>, mark: int)
    requires BaseOk(b)
    ensures BuiltAs(b, rw, mark, BuildConfig(b, rw, mark))
  {
  }

  /** A built config is readable, names its node, and grants exactly what the store grants. */
  lemma BuiltConfigGrants(b: Base, rw: Option<RwInbound>, mark: int)
    requires BaseOk(b)
    ensures Shaped(BuildConfig(b, rw, mark))
    ensures Names(BuildConfig(b, rw, mark), b.node)
    ensures LiveGrants(BuildConfig(b, rw, mark)) == Granted(rw)
  {
    BuildFields(b, rw, mark);
    AppendedBlockGrants(BuildConfig(b, rw, mark), b.inbounds, rw);
  }
}
