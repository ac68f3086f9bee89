/** The test that decides whether a save of the remote-access settings is a revocation. */
module Narrowing {

  const DEFAULT_NAMES := {"www.microsoft.com"}

  /** The credential surface a save is judged on: who is accepted, and where. The lists are the
      stored ones, and their entries are already lower-cased, as the comparison reads them. */
  datatype Credentials = Credentials(
    enabled: bool, port: string, shortIds: set<string>, serverNames: set<string>, privateKey: string)

  predicate Narrows(before: Credentials, after: Credentials) {
    && before.enabled && before.privateKey != ""
    && (|| !after.enabled
        || after.privateKey != before.privateKey
        || after.port != before.port
        || !(before.shortIds <= after.shortIds)
        || !(before.serverNames <= after.serverNames))
  }

  /** One way of knocking: a port, the key pair the client was given, a short id, a name. */
  datatype Knock = Knock(port: string, key: string, shortId: string, serverName: string)

  /** The names the inbound is built with: a blank list means the default ones. */
  function ServedNames(c: Credentials): set<string> {
    if c.serverNames == {} then DEFAULT_NAMES else c.serverNames
  }

  predicate Accepts(c: Credentials, k: Knock) {
    && c.enabled && c.privateKey != ""
    && k.port == c.port && k.key == c.privateKey
    && k.shortId in c.shortIds && k.serverName in ServedNames(c)
  }

  ghost predicate TakesAway(before: Credentials, after: Credentials) {
    exists k :: Accepts(before, k) && !Accepts(after, k)
  }

  /** A member of `xs`, outside `ys` if there is one. */
  ghost function Missing(xs: set<string>, ys: set<string>): (x: string)
    requires xs != {}
    ensures x in xs
    ensures !(xs <= ys) ==> x !in ys
  {
    if exists x :: x in xs && x !in ys then var x :| x in xs && x !in ys; x else var x :| x in xs; x
  }

  /** Which saves cut some client off. */
  lemma TakesAwayExactly(before: Credentials, after: Credentials)
    ensures TakesAway(before, after) <==>
            && before.enabled && before.privateKey != "" && before.shortIds != {}
            && (|| !after.enabled
                || after.privateKey != before.privateKey
                || after.port != before.port
                || !(before.shortIds <= after.shortIds)
                || !(ServedNames(before) <= ServedNames(after)))
  {
    if before.enabled && before.privateKey != "" && before.shortIds != {} {
      assert ServedNames(before) != {} by { assert "www.microsoft.com" in DEFAULT_NAMES; }
      var sid := Missing(before.shortIds, after.shortIds);
      var sni := Missing(ServedNames(before), ServedNames(after));
      assert Accepts(before, Knock(before.port, before.privateKey, sid, sni));
    }
  }

  /** While the stored list of names is not blank, no save that cuts a client off is taken for a
      widening one; and if the saved list is not blank either, the test is exact. */
  lemma NarrowsIsTakingAway(before: Credentials, after: Credentials)
    requires before.serverNames != {}
    ensures TakesAway(before, after) ==> Narrows(before, after)
    ensures before.shortIds != {} && after.serverNames != {} ==> (TakesAway(before, after) <==> Narrows(before, after))
  {
    TakesAwayExactly(before, after);
  }

  /** A blank list is compared as blank although the default names are served: a save over one goes
      unnoticed exactly when it drops a default name and nothing else. */
  lemma BlankNamesUnnoticedExactly(before: Credentials, after: Credentials)
    requires before.serverNames == {}
    ensures TakesAway(before, after) && !Narrows(before, after) <==>
            && before.enabled && before.privateKey != "" && before.shortIds != {}
            && after == before.(shortIds := after.shortIds, serverNames := after.serverNames)
            && before.shortIds <= after.shortIds
            && !(DEFAULT_NAMES <= ServedNames(after))
  {
    TakesAwayExactly(before, after);
  }

  /** A first server name saved over a blank list. */
  lemma FirstNameGoesUnnoticed()
    ensures
      var before := Credentials(true, "443", {"ab12"}, {}, "key");
      var after := before.(serverNames := {"example.com"});
      TakesAway(before, after) && !Narrows(before, after)
  {
    var before := Credentials(true, "443", {"ab12"}, {}, "key");
    var after := before.(serverNames := {"example.com"});
    assert "www.microsoft.com" in DEFAULT_NAMES && "www.microsoft.com" !in ServedNames(after);
    assert "ab12" in before.shortIds;
    BlankNamesUnnoticedExactly(before, after);
  }
}
