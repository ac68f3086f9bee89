/** Backup documents: export, the reference checks, and the import that replaces the configuration
    but never the remote-access credentials. */
module Backup {
  import opened Basics

  // ----- what is stored --------------------------------------------------------------------

  /** Setting names: the ones the import treats specially, the other allowlisted ones, and the rest
      (sessions, transient state, the active node). */
  datatype Setting =
    | RwPrivateKey | RwClients
    | RwPublicKey | RwEnabled | DefaultAction | DefaultProfile
    | Carried(name: string)
    | Private(name: string)

  /** The settings a backup carries and a restore replaces. */
  predicate Allowlisted(k: Setting) {
    !(k.RwPrivateKey? || k.RwClients? || k.Private?)
  }

  type Settings = map<Setting, string>

  /** `rest` stands for the columns nothing here looks at. */
  datatype Node = Node(
    subscription: Option<int>, profile: Option<int>, address: string, port: int, uuid: string, path: string,
    sni: string, shortId: string, rest: string)

  /** `fetched` is what the last fetch left: not configuration, and not carried. */
  datatype Subscription = Subscription(config: string, profile: Option<int>, fetched: string)

  datatype Rule = Rule(kind: string, value: string, action: string, enabled: bool, note: string, dataset: string)

  datatype Reservation = Reservation(mac: string, ip: string, name: string)

  datatype Tables = Tables(
    nodes: map<int, Node>, subscriptions: map<int, Subscription>, profiles: map<int, string>,
    rules: seq<Rule>, reservations: set<Reservation>)

  /** A document: rows in any order, the rules in theirs. `defaultAction` may be left out. */
  datatype Document = Document(
    nodes: seq<(int, Node)>, subscriptions: seq<(int, Subscription)>, profiles: seq<(int, string)>,
    rules: seq<Rule>, reservations: seq<Reservation>, defaultAction: Option<string>, settings: Settings)

  // ----- validation ------------------------------------------------------------------------

  predicate Unique<T(==)>(xs: seq<T>) {
    forall i, j :: 0 <= i < j < |xs| ==> xs[i] != xs[j]
  }

  function Ids<T>(rows: seq<(int, T)>): seq<int> {
    seq(|rows|, i requires 0 <= i < |rows| => rows[i].0)
  }

  datatype Identity = Identity(
    subscription: Option<int>, address: string, port: int, uuid: string, path: string, sni: string, shortId: string)

  function IdentityOf(n: Node): Identity {
    Identity(n.subscription, n.address, n.port, n.uuid, n.path, n.sni, n.shortId)
  }

  predicate Names(ids: seq<int>, r: Option<int>) {
    r.Some? ==> r.value in ids
  }

  /** A decimal number, as `int()` reads it: blanks around it and a sign are allowed. */
  function ParseDigits(s: string): Option<nat> {
    if s == "" || !('0' <= s[|s| - 1] <= '9') then None
    else
      var digit := (s[|s| - 1] as int - 48) as nat;
      if |s| == 1 then Some(digit)
      else
        var front := ParseDigits(s[..|s| - 1]);
        if front.Some? then Some(10 * front.value + digit) else None
  }

  function ParseInt(s: string): Option<int> {
    var t := Strip(s);
    if t != "" && t[0] == '-' then
      var n := ParseDigits(t[1..]);
      if n.Some? then Some(0 - n.value as int) else None
    else
      var n := ParseDigits(if t != "" && t[0] == '+' then t[1..] else t);
      if n.Some? then Some(n.value as int) else None
  }

  /** What a number is written as reads as that number. */
  lemma {:induction false} DigitsParse(n: nat)
    ensures ParseDigits(Digits(n)) == Some(n)
    ensures |Digits(n)| >= 1 && forall i :: 0 <= i < |Digits(n)| ==> '0' <= Digits(n)[i] <= '9'
  {
    if n >= 10 {
      DigitsParse(n / 10);
      assert Digits(n)[..|Digits(n)| - 1] == Digits(n / 10);
    }
  }

  lemma NumbersParse(n: nat)
    ensures ParseInt(Digits(n)) == Some(n as int) && ParseInt("-" + Digits(n)) == Some(0 - n as int)
  {
    DigitsParse(n);
    SignParse(Digits(n), n);
  }

  lemma NotBlank(c: char)
    requires '0' <= c <= '9' || c == '-'
    ensures !Blank(c)
  {
  }

  lemma SignParse(digits: string, n: nat)
    requires |digits| >= 1 && forall i :: 0 <= i < |digits| ==> '0' <= digits[i] <= '9'
    requires ParseDigits(digits) == Some(n)
    ensures ParseInt(digits) == Some(n as int) && ParseInt("-" + digits) == Some(0 - n as int)
  {
    NotBlank('-');
    NotBlank(digits[0]);
    NotBlank(digits[|digits| - 1]);
    var signed := "-" + digits;
    assert signed[0] == '-' && signed[|signed| - 1] == digits[|digits| - 1] && signed[1..] == digits;
    AlreadyTrimmed(digits);
    AlreadyTrimmed(signed);
    ParseTrimmed(digits, digits, n, false);
    ParseTrimmed(signed, digits, n, true);
  }

  lemma ParseTrimmed(s: string, digits: string, n: nat, negative: bool)
    requires Strip(s) == s && s != "" && ParseDigits(digits) == Some(n)
    requires if negative then s[0] == '-' && s[1..] == digits else '0' <= s[0] <= '9' && s == digits
    ensures ParseInt(s) == Some(if negative then 0 - n as int else n as int)
  {
  }

  lemma AlreadyTrimmed(s: string)
    requires Trimmed(s)
    ensures Strip(s) == s
  {
    var _, _ := StripExactly(s);
  }

  /** The default profile, if one is set, is a number that names a profile. */
  predicate DefaultProfileOk(s: Settings, profiles: set<int>) {
    DefaultProfile in s && s[DefaultProfile] != "" ==>
      ParseInt(s[DefaultProfile]).Some? && ParseInt(s[DefaultProfile]).value in profiles
  }

  /** Ids and node identities are unique and every reference names a row of the document. */
  predicate ReferencesOk(d: Document) {
    && Unique(Ids(d.profiles)) && Unique(Ids(d.subscriptions)) && Unique(Ids(d.nodes))
    && (forall i :: 0 <= i < |d.subscriptions| ==> Names(Ids(d.profiles), d.subscriptions[i].1.profile))
    && (forall i :: 0 <= i < |d.nodes| ==>
          Names(Ids(d.subscriptions), d.nodes[i].1.subscription) && Names(Ids(d.profiles), d.nodes[i].1.profile))
    && (forall i, j :: 0 <= i < j < |d.nodes| ==> IdentityOf(d.nodes[i].1) != IdentityOf(d.nodes[j].1))
    && DefaultProfileOk(d.settings, set id | id in Ids(d.profiles))
  }

  /** No value occurs twice: the set of them is as long as the list. */
  method AllDifferent(ids: seq<int>) returns (ok: bool)
    ensures ok <==> Unique(ids)
  {
    var seen: set<int> := {};
    for i := 0 to |ids|
      invariant Unique(ids[..i])
      invariant forall x :: x in seen <==> x in ids[..i]
    {
      if ids[i] in seen {
        var k :| 0 <= k < i && ids[..i][k] == ids[i];
        assert ids[k] == ids[i];
        return false;
      }
      seen := seen + {ids[i]};
      assert ids[..i + 1] == ids[..i] + [ids[i]];
    }
    assert ids[..|ids|] == ids;
    return true;
  }

  method ValidateReferences(d: Document) returns (ok: bool)
    ensures ok <==> ReferencesOk(d)
  {
    var profiles, subscriptions, nodes := Ids(d.profiles), Ids(d.subscriptions), Ids(d.nodes);
    var a := AllDifferent(profiles);
    var b := AllDifferent(subscriptions);
    var c := AllDifferent(nodes);
    if !a || !b || !c { return false; }
    for i := 0 to |d.subscriptions|
      invariant forall k :: 0 <= k < i ==> Names(profiles, d.subscriptions[k].1.profile)
    {
      if !Names(profiles, d.subscriptions[i].1.profile) { return false; }
    }
    var identities: set<Identity> := {};
    for i := 0 to |d.nodes|
      invariant forall k :: 0 <= k < i ==>
                  Names(subscriptions, d.nodes[k].1.subscription) && Names(profiles, d.nodes[k].1.profile)
      invariant forall j, k :: 0 <= j < k < i ==> IdentityOf(d.nodes[j].1) != IdentityOf(d.nodes[k].1)
      invariant forall x :: x in identities <==> exists k :: 0 <= k < i && IdentityOf(d.nodes[k].1) == x
    {
      var n := d.nodes[i].1;
      if !Names(subscriptions, n.subscription) || !Names(profiles, n.profile) { return false; }
      if IdentityOf(n) in identities { return false; }
      identities := identities + {IdentityOf(n)};
    }
    return DefaultProfileOk(d.settings, set id | id in profiles);
  }

  /** The routing block owns the default action: an omitted one adopts the settings' copy, and a
      disagreement is refused. */
  function ReconciledAction(d: Document): Option<string> {
    if DefaultAction !in d.settings then Some(if d.defaultAction.Some? then d.defaultAction.value else "proxy")
    else if d.defaultAction.None? || d.defaultAction.value == d.settings[DefaultAction]
    then Some(d.settings[DefaultAction])
    else None
  }

  predicate Validated(d: Document) {
    && ReferencesOk(d) && ReconciledAction(d).Some?
    && forall k :: k in d.settings ==> !k.Private?
  }

  // ----- the settings an import leaves ------------------------------------------------------

  function Value(s: Settings, k: Setting): string {
    if k in s then s[k] else ""
  }

  function Without(s: Settings, k: Setting): Settings {
    map x | x in s && x != k :: s[x]
  }

  /** The document's settings, less what is never restored and the copy of the default action. */
  function Offered(d: Document): Settings {
    map k | k in d.settings && !k.RwPrivateKey? && !k.RwClients? && !k.DefaultAction? :: d.settings[k]
  }

  /** The public half that may be stored: the local one if there is one, the document's on a box
      without any key, and none where it cannot be checked. */
  function KeyPairChecked(local: Settings, offered: Settings): Settings {
    var private, public := Strip(Value(local, RwPrivateKey)), Strip(Value(local, RwPublicKey));
    if Value(offered, RwPublicKey) == public || (private == "" && public == "") then offered
    else if public != "" then offered[RwPublicKey := public]
    else Without(offered, RwPublicKey)
  }

  /** Remote access comes back on only with both local halves and the document's public half equal
      to the local one. */
  predicate MayEnable(local: Settings, offered: Settings) {
    var private, public := Strip(Value(local, RwPrivateKey)), Strip(Value(local, RwPublicKey));
    private != "" && public != "" && Value(offered, RwPublicKey) == public
  }

  function AccessChecked(local: Settings, offered: Settings): Settings {
    var checked := KeyPairChecked(local, offered);
    if Value(offered, RwEnabled) == "1" && !MayEnable(local, offered) then checked[RwEnabled := "0"] else checked
  }

  function ImportedSettings(local: Settings, d: Document, action: string): Settings {
    var kept := map k | k in local && !Allowlisted(k) :: local[k];
    kept[DefaultAction := action] + AccessChecked(local, Offered(d))
  }

  // ----- the store -------------------------------------------------------------------------

  function Table<T>(rows: seq<(int, T)>): map<int, T> {
    if rows == [] then map[] else Table(rows[..|rows| - 1])[rows[|rows| - 1].0 := rows[|rows| - 1].1]
  }

  function Unfetched(s: Subscription): Subscription {
    s.(fetched := "")
  }

  /** The rule insert does not name the dataset column. */
  function Inserted(r: Rule): Rule {
    r.(dataset := "")
  }

  function Normalized(r: Reservation): Reservation {
    r.(mac := Lower(Strip(r.mac)), ip := Strip(r.ip))
  }

  function ImportedTables(d: Document): Tables {
    Tables(
      Table(d.nodes),
      map id | id in Table(d.subscriptions) :: Unfetched(Table(d.subscriptions)[id]),
      Table(d.profiles),
      seq(|d.rules|, i requires 0 <= i < |d.rules| => Inserted(d.rules[i])),
      set r | r in d.reservations :: Normalized(r))
  }

  method InsertTable<T>(rows: seq<(int, T)>) returns (table: map<int, T>)
    ensures table == Table(rows)
  {
    table := map[];
    for i := 0 to |rows|
      invariant table == Table(rows[..i])
    {
      assert rows[..i + 1][..i] == rows[..i];
      table := table[rows[i].0 := rows[i].1];
    }
    assert rows[..|rows|] == rows;
  }

  method InsertSubscriptions(rows: seq<(int, Subscription)>) returns (table: map<int, Subscription>)
    ensures table == map id | id in Table(rows) :: Unfetched(Table(rows)[id])
  {
    table := map[];
    for i := 0 to |rows|
      invariant table == map id | id in Table(rows[..i]) :: Unfetched(Table(rows[..i])[id])
    {
      assert rows[..i + 1][..i] == rows[..i];
      table := table[rows[i].0 := Unfetched(rows[i].1)];
    }
    assert rows[..|rows|] == rows;
  }

  method InsertReservations(rows: seq<Reservation>) returns (table: set<Reservation>)
    ensures table == set r | r in rows :: Normalized(r)
  {
    table := {};
    for i := 0 to |rows|
      invariant table == set r | r in rows[..i] :: Normalized(r)
    {
      assert rows[..i + 1] == rows[..i] + [rows[i]];
      table := table + {Normalized(rows[i])};
    }
    assert rows[..|rows|] == rows;
  }

  /** The same subscriptions with the same configuration, and nothing fetched. */
  ghost predicate SameSubscriptions(was: map<int, Subscription>, now: map<int, Subscription>) {
    && now.Keys == was.Keys
    && forall id :: id in was ==>
         now[id].config == was[id].config && now[id].profile == was[id].profile && now[id].fetched == ""
  }

  /** `now` is `was` with a trimmed, lower-case MAC and a trimmed address. */
  predicate Tidied(was: Reservation, now: Reservation) {
    now.name == was.name && now.mac == Lower(Strip(was.mac)) && now.ip == Strip(was.ip)
  }

  predicate Tidy(r: Reservation) {
    && Trimmed(r.mac) && Trimmed(r.ip)
    && forall i :: 0 <= i < |r.mac| ==> !IsUpper(r.mac[i])
  }

  /** The same reservations, tidied; one that was tidy as it was. */
  ghost predicate SameReservations(was: set<Reservation>, now: set<Reservation>) {
    && (forall r :: r in was ==> exists n :: n in now && Tidied(r, n))
    && (forall n :: n in now ==> exists r :: r in was && Tidied(r, n))
    && (forall r :: r in was && Tidy(r) ==> r in now)
  }

  lemma NormalizedSame(was: set<Reservation>)
    ensures SameReservations(was, set r | r in was :: Normalized(r))
  {
    var now := set r | r in was :: Normalized(r);
    forall r | r in was ensures exists n :: n in now && Tidied(r, n) {
      assert Normalized(r) in now && Tidied(r, Normalized(r));
    }
    forall r | r in was && Tidy(r) ensures r in now {
      var _, _ := StripExactly(r.mac);
      var _, _ := StripExactly(r.ip);
      LowerKeeps(r.mac);
      assert Normalized(r) in now;
    }
  }

  /** `d` lists what the store holds; the order of the rows does not matter, that of the rules does. */
  ghost predicate Exports(t: Tables, s: Settings, d: Document) {
    && Table(d.nodes) == t.nodes && Table(d.profiles) == t.profiles
    && SameSubscriptions(t.subscriptions, Table(d.subscriptions))
    && d.rules == t.rules && (set r | r in d.reservations) == t.reservations
    && d.settings == (map k | k in s && Allowlisted(k) :: s[k])
    && d.defaultAction == Some(if Value(s, DefaultAction) != "" then s[DefaultAction] else "proxy")
  }

  /** The rows of a table, one for each key. */
  method Listing<T>(table: map<int, T>) returns (rows: seq<(int, T)>)
    ensures Table(rows) == table && Unique(Ids(rows))
  {
    rows := [];
    var rest := table.Keys;
    while rest != {}
      invariant rest <= table.Keys
      invariant Table(rows) == map id | id in table && id !in rest :: table[id]
      invariant forall i :: 0 <= i < |rows| ==> rows[i].0 !in rest
      invariant forall i, j :: 0 <= i < j < |rows| ==> rows[i].0 != rows[j].0
      decreases |rest|
    {
      SomeMember(rest);
      var id :| id in rest;
      assert (rows + [(id, table[id])])[..|rows|] == rows;
      rows := rows + [(id, table[id])];
      rest := rest - {id};
    }
    assert Table(rows) == table;
  }

  method ListReservations(table: set<Reservation>) returns (rows: seq<Reservation>)
    ensures (set r | r in rows) == table
  {
    rows := [];
    var rest := table;
    while rest != {}
      invariant rest <= table
      invariant forall r :: r in rows <==> r in table && r !in rest
      decreases |rest|
    {
      var r :| r in rest;
      rows := rows + [r];
      rest := rest - {r};
    }
  }

  /** What an import makes of a document's subscriptions and reservations. */
  lemma ImportedRows(d: Document)
    ensures SameSubscriptions(Table(d.subscriptions), ImportedTables(d).subscriptions)
    ensures SameReservations((set r | r in d.reservations), ImportedTables(d).reservations)
  {
    var listed := set r | r in d.reservations;
    NormalizedSame(listed);
    assert ImportedTables(d).reservations == set r | r in listed :: Normalized(r);
  }

  class Store {
    var tables: Tables
    var health: map<int, string>
    var settings: Settings

    constructor (tables: Tables, settings: Settings)
      ensures this.tables == tables && this.settings == settings
    {
      this.tables, this.settings, this.health := tables, settings, map[];
    }

    /** A snapshot of the configuration. */
    method ExportState() returns (d: Document)
      ensures Exports(tables, settings, d)
      ensures Unique(Ids(d.nodes)) && Unique(Ids(d.subscriptions)) && Unique(Ids(d.profiles))
    {
      var nodes := Listing(tables.nodes);
      var config := map id | id in tables.subscriptions :: Unfetched(tables.subscriptions[id]);
      var subscriptions := Listing(config);
      var profiles := Listing(tables.profiles);
      var reservations := ListReservations(tables.reservations);
      var action := Value(settings, DefaultAction);
      d := Document(nodes, subscriptions, profiles, tables.rules, reservations,
                    Some(if action != "" then action else "proxy"),
                    map k | k in settings && Allowlisted(k) :: settings[k]);
    }

    /** Replace the allowlisted settings: check the key pair, then the claim that access is on. */
    method ReplaceSettings(d: Document, action: string) returns (disabled: bool)
      modifies `settings
      ensures settings == ImportedSettings(old(settings), d, action)
      ensures disabled == (Value(Offered(d), RwEnabled) == "1" && !MayEnable(old(settings), Offered(d)))
    {
      var offered := Offered(d);
      var localPrivate, localPublic := Strip(Value(settings, RwPrivateKey)), Strip(Value(settings, RwPublicKey));
      var kept := map k | k in settings && !Allowlisted(k) :: settings[k];
      kept := kept[DefaultAction := action];
      var verified := Value(offered, RwPublicKey) == localPublic;
      var checked := offered;
      if !verified && !(localPrivate == "" && localPublic == "") {
        if localPublic != "" { checked := checked[RwPublicKey := localPublic]; }
        else { checked := Without(checked, RwPublicKey); }
      }
      disabled := false;
      if Value(checked, RwEnabled) == "1" {
        if localPrivate == "" || localPublic == "" || !verified {
          disabled := true;
          checked := checked[RwEnabled := "0"];
        }
      }
      settings := kept + checked;
    }

    /** Validate, then replace everything in one transaction. */
    method ImportState(d: Document) returns (ok: bool, disabled: bool)
      modifies this
      ensures ok <==> Validated(d)
      ensures !ok ==> tables == old(tables) && settings == old(settings) && health == old(health)
      ensures ok ==> tables == ImportedTables(d) && health == map[]
      ensures ok ==> settings == ImportedSettings(old(settings), d, ReconciledAction(d).value)
      ensures ok ==> SameSubscriptions(Table(d.subscriptions), tables.subscriptions)
      ensures ok ==> SameReservations((set r | r in d.reservations), tables.reservations)
      ensures ok ==> disabled == (Value(d.settings, RwEnabled) == "1" && !MayEnable(old(settings), Offered(d)))
    {
      ok := ValidateReferences(d);
      disabled := false;
      if !ok { return; }
      var action := ReconciledAction(d);
      if action.None? || exists k :: k in d.settings && k.Private? { return false, false; }
      var nodes := InsertTable(d.nodes);
      var profiles := InsertTable(d.profiles);
      var subscriptions := InsertSubscriptions(d.subscriptions);
      var rules := seq(|d.rules|, i requires 0 <= i < |d.rules| => Inserted(d.rules[i]));
      var reservations := InsertReservations(d.reservations);
      disabled := ReplaceSettings(d, action.value);
      ImportedRows(d);
      tables := Tables(nodes, subscriptions, profiles, rules, reservations);
      health := map[];
    }
  }

  // ----- the settings, key by key ------------------------------------------------------------

  /** The stored value, or its absence. */
  function Stored(s: Settings, k: Setting): Option<string> {
    if k in s then Some(s[k]) else None
  }

  /** Maps are equal exactly when every key is stored alike. */
  lemma StoredEqual(a: Settings, b: Settings)
    ensures a == b <==> forall k :: Stored(a, k) == Stored(b, k)
  {
    if forall k :: Stored(a, k) == Stored(b, k) {
      forall k ensures k in a <==> k in b { assert Stored(a, k) == Stored(b, k); }
      forall k | k in a ensures a[k] == b[k] { assert Stored(a, k) == Stored(b, k); }
    }
  }

  /** What becomes of the public half. */
  function PublicAfter(local: Settings, d: Document): Option<string> {
    var private, public := Strip(Value(local, RwPrivateKey)), Strip(Value(local, RwPublicKey));
    if Value(d.settings, RwPublicKey) == public || (private == "" && public == "") then Stored(d.settings, RwPublicKey)
    else if public != "" then Some(public)
    else None
  }

  function EnabledAfter(local: Settings, d: Document): Option<string> {
    var private, public := Strip(Value(local, RwPrivateKey)), Strip(Value(local, RwPublicKey));
    if Value(d.settings, RwEnabled) == "1"
       && (private == "" || public == "" || Value(d.settings, RwPublicKey) != public)
    then Some("0") else Stored(d.settings, RwEnabled)
  }

  /** Where an import takes each setting from: the box, the document, or neither. */
  lemma ImportedAt(local: Settings, d: Document, action: string, k: Setting)
    ensures Stored(ImportedSettings(local, d, action), k) ==
            match k
            case RwPrivateKey => Stored(local, k)
            case RwClients => Stored(local, k)
            case DefaultAction => Some(action)
            case RwPublicKey => PublicAfter(local, d)
            case RwEnabled => EnabledAfter(local, d)
            case DefaultProfile => Stored(d.settings, k)
            case Carried(_) => Stored(d.settings, k)
            case Private(_) => if k in d.settings then Stored(d.settings, k) else Stored(local, k)
  {
    var offered := Offered(d);
    assert Value(offered, RwPublicKey) == Value(d.settings, RwPublicKey);
    assert Value(offered, RwEnabled) == Value(d.settings, RwEnabled);
    assert Stored(AccessChecked(local, offered), k) ==
           match k
           case RwPrivateKey => None
           case RwClients => None
           case DefaultAction => None
           case RwPublicKey => PublicAfter(local, d)
           case RwEnabled => EnabledAfter(local, d)
           case DefaultProfile => Stored(d.settings, k)
           case Carried(_) => Stored(d.settings, k)
           case Private(_) => Stored(d.settings, k);
  }

  // ----- what an import never touches -------------------------------------------------------

  /** The private key and the roster are the same, and a public half that was there is. */
  predicate SameCredentials(a: Settings, b: Settings) {
    && Stored(a, RwPrivateKey) == Stored(b, RwPrivateKey)
    && Stored(a, RwClients) == Stored(b, RwClients)
    && (Strip(Value(a, RwPublicKey)) != "" ==> Strip(Value(b, RwPublicKey)) == Strip(Value(a, RwPublicKey)))
  }

  /** One import: the private key, the client roster and a public half that is there stay, and remote
      access is on afterwards exactly when the document says so and its public half is the local one
      of a complete local pair. */
  lemma ImportKeepsCredentials(s: Settings, d: Document, action: string)
    ensures SameCredentials(s, ImportedSettings(s, d, action))
    ensures Stored(ImportedSettings(s, d, action), RwEnabled) == Some("1") <==>
            && Stored(d.settings, RwEnabled) == Some("1")
            && Strip(Value(s, RwPrivateKey)) != "" && Strip(Value(s, RwPublicKey)) != ""
            && Value(d.settings, RwPublicKey) == Strip(Value(s, RwPublicKey))
  {
    StripTwice(Value(s, RwPublicKey));
    ImportedAt(s, d, action, RwPrivateKey);
    ImportedAt(s, d, action, RwClients);
    ImportedAt(s, d, action, RwPublicKey);
    ImportedAt(s, d, action, RwEnabled);
    var back := ImportedSettings(s, d, action);
    assert Value(back, RwPublicKey) == if PublicAfter(s, d).Some? then PublicAfter(s, d).value else "";
  }

  /** Any number of imports. */
  function AfterImports(s: Settings, ds: seq<(Document, string)>): Settings {
    if ds == [] then s
    else ImportedSettings(AfterImports(s, ds[..|ds| - 1]), ds[|ds| - 1].0, ds[|ds| - 1].1)
  }

  lemma {:induction false} ImportsKeepCredentials(s: Settings, ds: seq<(Document, string)>)
    ensures SameCredentials(s, AfterImports(s, ds))
  {
    if ds != [] {
      ImportsKeepCredentials(s, ds[..|ds| - 1]);
      ImportKeepsCredentials(AfterImports(s, ds[..|ds| - 1]), ds[|ds| - 1].0, ds[|ds| - 1].1);
    }
  }

  // ----- round trip --------------------------------------------------------------------------

  /** Importing an export, on any box, reproduces nodes, subscriptions and profiles; the reservations
      once normalized; and the rules in their order, exactly if no rule names a dataset. */
  lemma TablesRoundTrip(t: Tables, s: Settings, d: Document)
    requires Exports(t, s, d)
    ensures var back := ImportedTables(d);
            && back.nodes == t.nodes && back.profiles == t.profiles
            && SameSubscriptions(t.subscriptions, back.subscriptions)
            && SameReservations(t.reservations, back.reservations)
            && (back.rules == t.rules <==> forall r :: r in t.rules ==> r.dataset == "")
            && |back.rules| == |t.rules|
            && (forall i :: 0 <= i < |t.rules| ==> back.rules[i] == t.rules[i].(dataset := ""))
  {
    ImportedRows(d);
    SubscriptionsAgain(t.subscriptions, Table(d.subscriptions), ImportedTables(d).subscriptions);
    RulesRoundTrip(d);
  }

  lemma SubscriptionsAgain(a: map<int, Subscription>, b: map<int, Subscription>, c: map<int, Subscription>)
    requires SameSubscriptions(a, b) && SameSubscriptions(b, c)
    ensures SameSubscriptions(a, c)
  {
  }

  lemma RulesRoundTrip(d: Document)
    ensures var back := ImportedTables(d).rules;
            && (back == d.rules <==> forall r :: r in d.rules ==> r.dataset == "")
            && |back| == |d.rules|
            && (forall i :: 0 <= i < |d.rules| ==> back[i] == d.rules[i].(dataset := ""))
  {
    var back := ImportedTables(d).rules;
    if forall r :: r in d.rules ==> r.dataset == "" {
      forall i | 0 <= i < |d.rules| ensures back[i] == d.rules[i] { assert d.rules[i] in d.rules; }
    }
    if back == d.rules {
      forall r | r in d.rules ensures r.dataset == "" {
        var i :| 0 <= i < |d.rules| && d.rules[i] == r;
        assert back[i] == Inserted(r);
      }
    }
  }

  /** An exported rule that names a dataset comes back as a different rule. */
  lemma DatasetIsLost(d: Document)
    requires d.rules == [Rule("geosite", "ru-blocked", "proxy", true, "", "ru")]
    ensures ImportedTables(d).rules == [Rule("geosite", "ru-blocked", "proxy", true, "", "")] != d.rules
  {
    assert ImportedTables(d).rules[0] == Inserted(d.rules[0]);
  }

  /** The action a stored configuration runs with. */
  function ActionOf(s: Settings): string {
    if DefaultAction in s then s[DefaultAction] else "proxy"
  }

  /** Carried settings of the export come back on any box. */
  lemma SettingsRoundTrip(t: Tables, s: Settings, d: Document, box: Settings, name: string)
    requires Exports(t, s, d) && ReconciledAction(d).Some?
    ensures var back := ImportedSettings(box, d, ReconciledAction(d).value);
            && Stored(back, Carried(name)) == Stored(s, Carried(name))
            && Stored(back, DefaultProfile) == Stored(s, DefaultProfile)
            && Stored(back, DefaultAction) == Some(ActionOf(s))
  {
    ImportedAt(box, d, ReconciledAction(d).value, Carried(name));
    ImportedAt(box, d, ReconciledAction(d).value, DefaultAction);
    ImportedAt(box, d, ReconciledAction(d).value, DefaultProfile);
    ExportedAt(t, s, d, Carried(name));
    ExportedAt(t, s, d, DefaultProfile);
    ExportedAction(t, s, d);
  }

  lemma ExportedAt(t: Tables, s: Settings, d: Document, k: Setting)
    requires Exports(t, s, d)
    ensures Stored(d.settings, k) == if Allowlisted(k) then Stored(s, k) else None
  {
  }

  /** An export carries the action twice and the copies agree, unless a blank one is stored: that
      export its own validation refuses. */
  lemma ExportedAction(t: Tables, s: Settings, d: Document)
    requires Exports(t, s, d)
    ensures ReconciledAction(d).Some? <==> Stored(s, DefaultAction) != Some("")
    ensures ReconciledAction(d).Some? ==> ReconciledAction(d) == Some(ActionOf(s))
  {
    ExportedAt(t, s, d, DefaultAction);
  }

  /** Both halves of the stored pair are as the import would leave them. */
  predicate PairSettled(s: Settings) {
    var private, public := Strip(Value(s, RwPrivateKey)), Strip(Value(s, RwPublicKey));
    && (Value(s, RwPublicKey) == public || (private == "" && public == ""))
    && (Value(s, RwEnabled) == "1" ==> private != "" && public != "")
  }

  /** On the box the export came from, the settings are what they were, with the default action
      written out, exactly if the public half is stored trimmed (or there is no key at all) and access
      is not claimed to be on without a complete pair. */
  lemma OwnSettingsRoundTrip(t: Tables, s: Settings, d: Document)
    requires Exports(t, s, d) && ReconciledAction(d).Some?
    ensures ImportedSettings(s, d, ReconciledAction(d).value) == s[DefaultAction := ActionOf(s)] <==> PairSettled(s)
  {
    ExportedAction(t, s, d);
    var back, want := ImportedSettings(s, d, ActionOf(s)), s[DefaultAction := ActionOf(s)];
    StoredEqual(back, want);
    ExportedAt(t, s, d, RwPublicKey);
    ExportedAt(t, s, d, RwEnabled);
    ImportedAt(s, d, ActionOf(s), RwPublicKey);
    ImportedAt(s, d, ActionOf(s), RwEnabled);
    forall k | k != RwPublicKey && k != RwEnabled ensures Stored(back, k) == Stored(want, k) {
      ImportedAt(s, d, ActionOf(s), k);
      ExportedAt(t, s, d, k);
    }
    PairAfter(s, d);
    assert Stored(want, RwPublicKey) == Stored(s, RwPublicKey) && Stored(want, RwEnabled) == Stored(s, RwEnabled);
  }

  lemma PairAfter(s: Settings, d: Document)
    requires Stored(d.settings, RwPublicKey) == Stored(s, RwPublicKey)
    requires Stored(d.settings, RwEnabled) == Stored(s, RwEnabled)
    ensures PublicAfter(s, d) == Stored(s, RwPublicKey) && EnabledAfter(s, d) == Stored(s, RwEnabled)
            <==> PairSettled(s)
  {
  }

  // ----- end to end --------------------------------------------------------------------------

  /** Every reference in the tables and the default profile names a row, and no two nodes share an
      identity. */
  predicate Coherent(t: Tables, s: Settings) {
    && (forall id :: id in t.subscriptions ==> Resolves(t.profiles.Keys, t.subscriptions[id].profile))
    && (forall id :: id in t.nodes ==>
          Resolves(t.subscriptions.Keys, t.nodes[id].subscription) && Resolves(t.profiles.Keys, t.nodes[id].profile))
    && (forall a, b :: a in t.nodes && b in t.nodes && a != b ==> !SameIdentity(t.nodes[a], t.nodes[b]))
    && (Value(s, DefaultProfile) != "" ==>
          exists id :: id in t.profiles && ParseInt(s[DefaultProfile]) == Some(id))
  }

  /** The same server reached the same way, from the same subscription. */
  predicate SameIdentity(a: Node, b: Node) {
    && a.subscription == b.subscription && a.address == b.address && a.port == b.port && a.uuid == b.uuid
    && a.path == b.path && a.sni == b.sni && a.shortId == b.shortId
  }

  predicate Resolves(ids: set<int>, r: Option<int>) {
    r.Some? ==> r.value in ids
  }

  /** The rows of a list without repeated ids are the rows of its table. */
  lemma {:induction false} TableRows<T>(rows: seq<(int, T)>)
    requires Unique(Ids(rows))
    ensures forall id :: id in Table(rows) <==> id in Ids(rows)
    ensures forall i :: 0 <= i < |rows| ==> rows[i].0 in Table(rows) && Table(rows)[rows[i].0] == rows[i].1
  {
    if rows != [] {
      var init, last := rows[..|rows| - 1], rows[|rows| - 1];
      assert forall i :: 0 <= i < |init| ==> Ids(init)[i] == Ids(rows)[i];
      TableRows(init);
      assert Ids(rows) == Ids(init) + [last.0];
      forall i | 0 <= i < |init| ensures rows[i].0 != last.0 {
        assert Ids(rows)[i] != Ids(rows)[|rows| - 1];
      }
    }
  }

  /** Where a row of the table stands in the list. */
  lemma RowAt<T>(rows: seq<(int, T)>, id: int) returns (i: nat)
    requires Unique(Ids(rows)) && id in Table(rows)
    ensures i < |rows| && rows[i] == (id, Table(rows)[id])
  {
    TableRows(rows);
    i :| 0 <= i < |rows| && Ids(rows)[i] == id;
    assert rows[i].0 == id;
  }

  lemma SameNames<T>(rows: seq<(int, T)>, r: Option<int>)
    requires Unique(Ids(rows))
    ensures Names(Ids(rows), r) <==> Resolves(Table(rows).Keys, r)
  {
    TableRows(rows);
    if r.Some? {
      var id: int := r.value;
      var table, ids := Table(rows), Ids(rows);
      assert id in table <==> id in ids;
    }
  }

  /** An exported document refers properly exactly when the tables did. */
  lemma ExportedReferences(t: Tables, s: Settings, d: Document)
    requires Exports(t, s, d) && Unique(Ids(d.nodes)) && Unique(Ids(d.subscriptions)) && Unique(Ids(d.profiles))
    ensures ReferencesOk(d) <==> Coherent(t, s)
  {
    if Coherent(t, s) { CoherentReferences(t, s, d); }
    if ReferencesOk(d) { ReferencesWereCoherent(t, s, d); }
  }

  lemma SameDefaultProfile(t: Tables, s: Settings, d: Document)
    requires Exports(t, s, d) && Unique(Ids(d.profiles))
    ensures DefaultProfileOk(d.settings, set id | id in Ids(d.profiles)) <==>
            (Value(s, DefaultProfile) != "" ==>
               exists id :: id in t.profiles && ParseInt(s[DefaultProfile]) == Some(id))
  {
    ExportedAt(t, s, d, DefaultProfile);
    TableRows(d.profiles);
    var listed := set id | id in Ids(d.profiles);
    assert forall id :: id in listed <==> id in t.profiles.Keys;
  }

  lemma CoherentReferences(t: Tables, s: Settings, d: Document)
    requires Exports(t, s, d) && Unique(Ids(d.nodes)) && Unique(Ids(d.subscriptions)) && Unique(Ids(d.profiles))
    requires Coherent(t, s)
    ensures ReferencesOk(d)
  {
    SameDefaultProfile(t, s, d);
    TableRows(d.nodes);
    TableRows(d.subscriptions);
    assert Table(d.subscriptions).Keys == t.subscriptions.Keys;
    forall i | 0 <= i < |d.subscriptions| ensures Names(Ids(d.profiles), d.subscriptions[i].1.profile) {
      var (id, row) := d.subscriptions[i];
      assert id in t.subscriptions && row.profile == t.subscriptions[id].profile;
      assert Resolves(t.profiles.Keys, row.profile);
      SameNames(d.profiles, row.profile);
    }
    forall i | 0 <= i < |d.nodes|
      ensures Names(Ids(d.subscriptions), d.nodes[i].1.subscription) && Names(Ids(d.profiles), d.nodes[i].1.profile)
    {
      var (id, row) := d.nodes[i];
      assert id in t.nodes && row == t.nodes[id];
      assert Resolves(t.subscriptions.Keys, row.subscription) && Resolves(t.profiles.Keys, row.profile);
      SameNames(d.subscriptions, row.subscription);
      SameNames(d.profiles, row.profile);
    }
    forall i, j | 0 <= i < j < |d.nodes| ensures IdentityOf(d.nodes[i].1) != IdentityOf(d.nodes[j].1) {
      assert Ids(d.nodes)[i] != Ids(d.nodes)[j];
    }
  }

  lemma ReferencesWereCoherent(t: Tables, s: Settings, d: Document)
    requires Exports(t, s, d) && ReferencesOk(d)
    ensures Coherent(t, s)
  {
    SameDefaultProfile(t, s, d);
    assert Table(d.subscriptions).Keys == t.subscriptions.Keys;
    forall id | id in t.subscriptions ensures Resolves(t.profiles.Keys, t.subscriptions[id].profile) {
      var i := RowAt(d.subscriptions, id);
      SameNames(d.profiles, d.subscriptions[i].1.profile);
    }
    forall id | id in t.nodes
      ensures Resolves(t.subscriptions.Keys, t.nodes[id].subscription) && Resolves(t.profiles.Keys, t.nodes[id].profile)
    {
      var i := RowAt(d.nodes, id);
      SameNames(d.subscriptions, d.nodes[i].1.subscription);
      SameNames(d.profiles, d.nodes[i].1.profile);
    }
    forall a, b | a in t.nodes && b in t.nodes && a != b ensures !SameIdentity(t.nodes[a], t.nodes[b]) {
      var i := RowAt(d.nodes, a);
      var j := RowAt(d.nodes, b);
    }
  }

  /** Export from one box, import on another. It is accepted if and only if the tables are coherent and
      the default action is not stored blank; what then comes back is the source's configuration with
      rules stripped of their dataset and reservations normalized, beside the target's own credentials;
      a refusal leaves the target as it was. */
  method MoveConfiguration(source: Store, target: Store) returns (ok: bool)
    requires source != target
    modifies target
    ensures ok <==> Coherent(source.tables, source.settings) && Stored(source.settings, DefaultAction) != Some("")
    ensures !ok ==> target.tables == old(target.tables) && target.settings == old(target.settings)
    ensures ok ==>
              && target.tables.nodes == source.tables.nodes && target.tables.profiles == source.tables.profiles
              && SameSubscriptions(source.tables.subscriptions, target.tables.subscriptions)
              && SameReservations(source.tables.reservations, target.tables.reservations)
              && |target.tables.rules| == |source.tables.rules|
              && (forall i :: 0 <= i < |source.tables.rules| ==>
                    target.tables.rules[i] == source.tables.rules[i].(dataset := ""))
    ensures ok ==>
              && SameCredentials(old(target.settings), target.settings)
              && (forall name :: Stored(target.settings, Carried(name)) == Stored(source.settings, Carried(name)))
              && Stored(target.settings, DefaultProfile) == Stored(source.settings, DefaultProfile)
              && Stored(target.settings, DefaultAction) == Some(ActionOf(source.settings))
  {
    var d := source.ExportState();
    var t, s := source.tables, source.settings;
    ExportedReferences(t, s, d);
    ExportedAction(t, s, d);
    ExportsNothingPrivate(t, s, d);
    var disabled;
    ok, disabled := target.ImportState(d);
    if ok {
      TablesRoundTrip(t, s, d);
      ImportKeepsCredentials(old(target.settings), d, ActionOf(s));
      forall name
        ensures Stored(target.settings, Carried(name)) == Stored(s, Carried(name))
        ensures Stored(target.settings, DefaultAction) == Some(ActionOf(s))
      {
        SettingsRoundTrip(t, s, d, old(target.settings), name);
      }
      SettingsRoundTrip(t, s, d, old(target.settings), "");
    }
  }

  lemma ExportsNothingPrivate(t: Tables, s: Settings, d: Document)
    requires Exports(t, s, d)
    ensures forall k :: k in d.settings ==> !k.Private? && !k.RwPrivateKey? && !k.RwClients?
  {
  }
}
