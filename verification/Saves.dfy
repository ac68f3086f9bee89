/** Saving the remote-access settings: what the store resolves to, how a save is dispatched, and what
    the dispatch notices. */
module Saves {
  import opened Basics
  import opened Xray
  import opened Narrowing
  import opened Gateway

  const DEFAULT_DEST := "www.microsoft.com:443"

  /** A client of the roster, who may be suspended. */
  datatype Enrolled = Enrolled(client: Client, enabled: bool)

  /** The stored settings and roster. `wellFormed` says that every value passes its validator; the
      lists are the parsed ones. */
  datatype Stored = Stored(
    enabled: bool, port: nat, dest: string, serverNames: seq<string>, shortIds: seq<string>, privateKey: string,
    roster: seq<Enrolled>, hosts: map<string, string>, hostNames: seq<string>, wellFormed: bool)

  function EnabledClients(roster: seq<Enrolled>): seq<Client> {
    if roster == [] then []
    else (if roster[0].enabled then [roster[0].client] else []) + EnabledClients(roster[1..])
  }

  /** What may be emitted: nothing when disabled, keyless, without an enabled client, or malformed; blank
      names and a blank destination mean the defaults. */
  function Resolve(s: Stored): Option<RwInbound> {
    if !s.enabled || s.privateKey == "" || EnabledClients(s.roster) == [] || !s.wellFormed then None
    else Some(RwInbound(
      s.port, if s.dest == "" then DEFAULT_DEST else s.dest,
      if s.serverNames == [] then ["www.microsoft.com"] else s.serverNames,
      s.privateKey, s.shortIds, EnabledClients(s.roster), s.hosts, s.hostNames))
  }

  lemma {:induction false} EnabledExactly(roster: seq<Enrolled>)
    ensures forall c :: c in EnabledClients(roster) <==> Enrolled(c, true) in roster
    ensures EnabledClients(roster) == [] <==> forall e :: e in roster ==> !e.enabled
  {
    if roster != [] {
      EnabledExactly(roster[1..]);
      assert roster == [roster[0]] + roster[1..];
      assert roster[0].enabled ==> roster[0] == Enrolled(roster[0].client, true);
    }
  }

  /** An inbound may be emitted exactly if the store is enabled, holds a key, is well formed and has a
      client who is not suspended; it is then the stored one, with exactly those clients. */
  lemma ResolvesExactly(s: Stored)
    ensures Resolve(s).Some? <==>
            s.enabled && s.privateKey != "" && s.wellFormed && exists e :: e in s.roster && e.enabled
    ensures Resolve(s).Some? ==>
              var rw := Resolve(s).value;
              && rw.port == s.port && rw.privateKey == s.privateKey && rw.shortIds == s.shortIds
              && rw.dest == (if s.dest == "" then "www.microsoft.com:443" else s.dest)
              && rw.serverNames == (if s.serverNames == [] then ["www.microsoft.com"] else s.serverNames)
              && (forall c :: c in rw.clients <==> Enrolled(c, true) in s.roster)
  {
    EnabledExactly(s.roster);
  }

  /** Who is let in: a client of the roster who is not suspended, while the store is enabled, keyed and
      well formed, and nobody else. */
  lemma AdmitsExactly(s: Stored, id: string)
    ensures Token(ClientId, Str(id)) in Granted(Resolve(s)) <==>
            && s.enabled && s.privateKey != "" && s.wellFormed
            && exists e :: e in s.roster && e.enabled && e.client.id == id
  {
    ResolvesExactly(s);
    if Resolve(s).Some? {
      StoredTokens(Resolve(s).value, Token(ClientId, Str(id)));
      LetsIn(s.roster, Resolve(s).value.clients, id);
    }
  }

  lemma LetsIn(roster: seq<Enrolled>, clients: seq<Client>, id: string)
    requires forall c :: c in clients <==> Enrolled(c, true) in roster
    ensures (exists c :: c in clients && c.id == id) <==> exists e :: e in roster && e.enabled && e.client.id == id
  {
    if exists c :: c in clients && c.id == id {
      var c :| c in clients && c.id == id;
      assert Enrolled(c, true) in roster && Enrolled(c, true).client.id == id;
    }
    if exists e :: e in roster && e.enabled && e.client.id == id {
      var e :| e in roster && e.enabled && e.client.id == id;
      assert e == Enrolled(e.client, true);
      assert e.client in clients;
    }
  }

  lemma {:induction false} DigitsDiffer(a: nat, b: nat)
    requires Digits(a) == Digits(b)
    ensures a == b
  {
    DigitsLength(a);
    DigitsLength(b);
    if a < 10 || b < 10 {
      assert |Digits(a)| == 1 && |Digits(b)| == 1;
    } else {
      assert Digits(a)[..|Digits(a)| - 1] == Digits(a / 10) && Digits(b)[..|Digits(b)| - 1] == Digits(b / 10);
      DigitsDiffer(a / 10, b / 10);
      assert Digits(a)[|Digits(a)| - 1] == Digits(b)[|Digits(b)| - 1];
    }
  }

  lemma {:induction false} DigitsLength(n: nat)
    ensures |Digits(n)| >= 1 && (|Digits(n)| == 1 <==> n < 10)
  {
    if n >= 10 { DigitsLength(n / 10); }
  }

  function LowerSet(xs: seq<string>): set<string> {
    set x | x in xs :: Lower(x)
  }

  /** The surface a save is judged on. */
  function Surface(s: Stored): Credentials {
    Credentials(s.enabled, Digits(s.port), LowerSet(s.shortIds), LowerSet(s.serverNames), s.privateKey)
  }

  /** What a save the test calls a widening may still take away: the destination, a spelling of a short
      id or name that stays in another spelling, and the default names a blank list stood for. */
  predicate Unnoticed(a: Stored, b: Stored, t: Token) {
    || t.space == Dest
    || (t.space == ShortId && t.value.Str? && Lower(t.value.s) in LowerSet(b.shortIds))
    || (t.space == ServerName && t.value.Str? && Lower(t.value.s) in LowerSet(b.serverNames))
    || (t.space == ServerName && a.serverNames == [])
  }

  /** A save that is not called a narrowing takes away nothing else. It leaves the roster alone and its
      own values are validated. */
  lemma WideningTakesNothingElse(a: Stored, b: Stored, t: Token)
    requires !Narrows(Surface(a), Surface(b)) && b.roster == a.roster && b.wellFormed
    requires t in Granted(Resolve(a)) && t !in Granted(Resolve(b))
    ensures Unnoticed(a, b, t)
  {
    var x := Resolve(a).value;
    BlockGrantsExactly(x);
    DigitsDiffer(a.port, b.port);
    assert Resolve(b).Some?;
    BlockGrantsExactly(Resolve(b).value);
  }

  /** The save as it is dispatched: judged on the stored surface before and after. */
  method PutRw(g: Gateway, a: Stored, b: Stored) returns (ok: bool)
    requires g.Valid() && g.store.rw == Resolve(a) && b.roster == a.roster && b.wellFormed
    modifies g
    ensures g.Valid()
    ensures ok ==> g.store.rw == Resolve(b)
    ensures g.smooth ==> ok
    // once it is stored, every grant it took away is held revoked, unless the test cannot notice it
    ensures g.store.rw == Resolve(b) ==>
              forall t :: t in Granted(Resolve(a)) && t !in Granted(Resolve(b)) ==> t in g.revoked || Unnoticed(a, b, t)
  {
    if Narrows(Surface(a), Surface(b)) {
      var o := g.SaveNarrower(Resolve(b));
      ok := o.Lives? && o.value.Some?;
    } else {
      var o := g.SaveWider(Resolve(b));
      ok := o == Lives(true);
      forall t | t in Granted(Resolve(a)) && t !in Granted(Resolve(b)) ensures Unnoticed(a, b, t) {
        WideningTakesNothingElse(a, b, t);
      }
    }
  }
}
