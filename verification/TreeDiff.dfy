/** Which services a difference between two rendered trees concerns, and how strongly. */
module TreeDiff {
  import opened Wrappers
  import opened Users
  import opened Registry
  import opened Rendering

  /** Mount: a restart lands the service on the new file. Recreate: only a new container does. */
  datatype How = Mount | Recreate

  datatype Consumer = Consumer(service: string, how: How)

  type Changes = map<string, How>

  const CONSUMERS: seq<(string, Consumer)> := [
    ("sing-box/", Consumer("sing-box", Mount)),
    ("dnstt/", Consumer("dnstt", Mount)),
    ("dnstt-sshd/", Consumer("dnstt-sshd", Recreate)),
    ("dnstt.env", Consumer("dnstt-sshd", Recreate)),
    ("ikev2.env", Consumer("ikev2", Recreate))]

  predicate Covers(entry: string, rel: string)
  {
    rel == entry || (entry != "" && entry[|entry| - 1] == '/' && entry <= rel)
  }

  function ConsumerAmong(table: seq<(string, Consumer)>, rel: string): Option<Consumer>
  {
    if table == [] then None
    else if Covers(table[0].0, rel) then Some(table[0].1)
    else ConsumerAmong(table[1..], rel)
  }

  /** The first entry of the table that covers a rendered path. */
  function ConsumerOf(rel: string): Option<Consumer>
  {
    ConsumerAmong(CONSUMERS, rel)
  }

  predicate Differs(previous: Tree, candidate: Tree, rel: string)
  {
    rel in previous.Keys + candidate.Keys &&
    !(rel in previous && rel in candidate && previous[rel] == candidate[rel])
  }

  // ------------------------------------------------------- the order-free specification

  ghost predicate Untellable(previous: Tree, candidate: Tree)
  {
    exists rel :: Differs(previous, candidate, rel) && ConsumerOf(rel).None?
  }

  /** Some differing file of the service demands at least this much. */
  ghost predicate Demands(previous: Tree, candidate: Tree, service: string, how: How)
  {
    exists rel :: Differs(previous, candidate, rel) && ConsumerOf(rel) == Some(Consumer(service, how))
  }

  /** Exactly the consumers of the differing files, each as strongly as some file demands. */
  ghost predicate IsDiff(previous: Tree, candidate: Tree, changed: Changes)
  {
    && (forall s | s in changed ::
          changed[s] == Recreate <==> Demands(previous, candidate, s, Recreate))
    && (forall s | s in changed ::
          changed[s] == Mount ==> Demands(previous, candidate, s, Mount))
    && (forall rel | Differs(previous, candidate, rel) ::
          ConsumerOf(rel).Some? ==> ConsumerOf(rel).value.service in changed)
  }

  /** What comparing a candidate with the tree before it must answer. */
  ghost predicate DiffSpec(previous: Option<Tree>, candidate: Tree, answer: Option<Changes>)
  {
    match previous
    case None => answer.None?
    case Some(prev) =>
      if Untellable(prev, candidate) then answer.None?
      else answer.Some? && IsDiff(prev, candidate, answer.value)
  }

  /** The specification leaves one answer. */
  lemma DiffUnique(previous: Option<Tree>, candidate: Tree, a: Option<Changes>, b: Option<Changes>)
    requires DiffSpec(previous, candidate, a) && DiffSpec(previous, candidate, b)
    ensures a == b
  {
    if a.Some? {
      hide ConsumerOf, Differs;
      forall s ensures s in a.value <==> s in b.value {
        if s in a.value { assert Demands(previous.value, candidate, s, a.value[s]); }
        if s in b.value { assert Demands(previous.value, candidate, s, b.value[s]); }
      }
      assert forall s | s in a.value :: a.value[s] == b.value[s];
      assert a.value == b.value;
    }
  }

  /** Whatever order the paths are looked at in, the answer is the specified one. */
  method ChangedServices(previous: Option<Tree>, candidate: Tree) returns (answer: Option<Changes>)
    ensures DiffSpec(previous, candidate, answer)
  {
    hide ConsumerOf;
    if previous.None? {
      return None;
    }
    var prev := previous.value;
    var changed: Changes := map[];
    var todo := prev.Keys + candidate.Keys;
    while todo != {}
      invariant todo <= prev.Keys + candidate.Keys
      invariant forall s | s in changed && changed[s] == Recreate :: Demands(prev, candidate, s, Recreate)
      invariant forall s | s in changed && changed[s] == Mount :: Demands(prev, candidate, s, Mount)
      invariant forall rel | Differs(prev, candidate, rel) && rel !in todo ::
          && ConsumerOf(rel).Some?
          && ConsumerOf(rel).value.service in changed
          && (ConsumerOf(rel).value.how == Recreate ==> changed[ConsumerOf(rel).value.service] == Recreate)
    {
      var rel :| rel in todo;
      todo := todo - {rel};
      if rel in prev && rel in candidate && prev[rel] == candidate[rel] {
        continue;
      }
      assert Differs(prev, candidate, rel);
      var consumer := ConsumerOf(rel);
      if consumer.None? {
        return None;
      }
      var Consumer(service, how) := consumer.value;
      assert Demands(prev, candidate, service, how);
      if !(service in changed && changed[service] == Recreate) {
        changed := changed[service := how];
      }
    }
    return Some(changed);
  }

  // ------------------------------------------------------------ what an answer means

  /** The files of a tree that one service consumes. */
  function FilesOf(t: Tree, service: string): Tree
  {
    map rel | rel in t && ConsumerOf(rel).Some? && ConsumerOf(rel).value.service == service :: t[rel]
  }

  ghost predicate Feeds(t: Tree, service: string)
  {
    exists rel :: rel in t && ConsumerOf(rel).Some? && ConsumerOf(rel).value.service == service
  }

  /** A service the answer leaves out has byte-identical inputs in the two trees. */
  lemma AbsentMeansIdentical(previous: Tree, candidate: Tree, changed: Changes, service: string)
    requires DiffSpec(Some(previous), candidate, Some(changed))
    requires service !in changed
    ensures FilesOf(previous, service) == FilesOf(candidate, service)
    ensures Feeds(previous, service) <==> Feeds(candidate, service)
  {
    hide ConsumerOf;
    forall rel | ConsumerOf(rel).Some? && ConsumerOf(rel).value.service == service
      ensures rel in previous <==> rel in candidate
      ensures rel in previous ==> previous[rel] == candidate[rel]
    {
      assert !Differs(previous, candidate, rel);
    }
  }

  /** Comparing a tree with itself finds nothing to do. */
  lemma SameTreeChangesNothing(t: Tree, answer: Option<Changes>)
    requires DiffSpec(Some(t), t, answer)
    ensures answer == Some(map[])
  {
    hide ConsumerOf;
    assert forall rel :: !Differs(t, t, rel);
    assert forall s, how :: !Demands(t, t, s, how);
    assert forall s :: s !in answer.value;
  }

  // ------------------------------------------------------------------- the table itself

  predicate Mountable(service: string)
  {
    service == "sing-box" || service == "dnstt"
  }

  /** What each entry of the table says about a path. */
  lemma TableRows(rel: string)
    ensures ConsumerOf(rel) ==
            if "sing-box/" <= rel then Some(Consumer("sing-box", Mount))
            else if "dnstt/" <= rel then Some(Consumer("dnstt", Mount))
            else if "dnstt-sshd/" <= rel then Some(Consumer("dnstt-sshd", Recreate))
            else if rel == "dnstt.env" then Some(Consumer("dnstt-sshd", Recreate))
            else if rel == "ikev2.env" then Some(Consumer("ikev2", Recreate))
            else None
  {
    var t := CONSUMERS;
    assert t[1..][1..] == t[2..] && t[2..][1..] == t[3..] && t[3..][1..] == t[4..] && t[4..][1..] == [];
    assert ConsumerAmong([], rel) == None;
    assert ConsumerAmong(t[4..], rel) == if rel == "ikev2.env" then Some(Consumer("ikev2", Recreate)) else None;
    assert ConsumerAmong(t[3..], rel) ==
      if rel == "dnstt.env" then Some(Consumer("dnstt-sshd", Recreate)) else ConsumerAmong(t[4..], rel);
    assert ConsumerAmong(t[2..], rel) ==
      if "dnstt-sshd/" <= rel then Some(Consumer("dnstt-sshd", Recreate)) else ConsumerAmong(t[3..], rel);
    assert ConsumerAmong(t[1..], rel) ==
      if "dnstt/" <= rel then Some(Consumer("dnstt", Mount)) else ConsumerAmong(t[2..], rel);
  }

  /** Only the two services that keep nothing across a restart are listed as restartable. */
  lemma MountRows(rel: string)
    requires ConsumerOf(rel).Some? && ConsumerOf(rel).value.how == Mount
    ensures Mountable(ConsumerOf(rel).value.service)
  {
    TableRows(rel);
  }

  /** Every file a tree can hold is known to the table, and feeds a service that will be up. */
  lemma TreeIsCovered(common: map<string, string>, keyring: Keyring, users: seq<User>,
                      enabled: seq<Protocol>, rel: string)
    requires TreeFor(common, keyring, users, enabled).Ok?
    requires rel in TreeFor(common, keyring, users, enabled).value
    ensures ConsumerOf(rel).Some?
    ensures ConsumerOf(rel).value.service in Services(enabled)
  {
    hide ConsumerOf, Merge;
    var merged := Merge(CommonTree(common), enabled, keyring, users);
    assert merged == TreeFor(common, keyring, users, enabled);
    hide TreeFor, Render;
    MergeContents(CommonTree(common), enabled, keyring, users);
    if rel in CommonTree(common) {
      CommonPath(rel);
    } else {
      var p :| p in enabled && Render(p, keyring, users).Ok? && rel in Render(p, keyring, users).value;
      PrintedPath(p, keyring, users, rel);
      var s := ConsumerOf(rel).value.service;
      if s != "sing-box" {
        ServicesOf(enabled, p, s);
      }
    }
  }

  lemma CommonPath(rel: string)
    requires "sing-box/" <= rel
    ensures ConsumerOf(rel) == Some(Consumer("sing-box", Mount))
  {
    TableRows(rel);
  }

  function PathsOf(p: Protocol): set<string>
  {
    if p == VLESS then {"sing-box/10_vless-reality.json"}
    else if p == HYSTERIA2 then
      {"sing-box/20_hysteria2.json", "sing-box/certs/certificate.pem", "sing-box/certs/private.key"}
    else if p == IKEV2 then {"ikev2.env"}
    else if p == DNSTT then {"dnstt/server.key", "dnstt-sshd/logins", "dnstt.env"}
    else {}
  }

  lemma PathsPrinted(p: Protocol, keyring: Keyring, users: seq<User>)
    requires Render(p, keyring, users).Ok?
    ensures Render(p, keyring, users).value.Keys == PathsOf(p)
  {
  }

  lemma OwnPath(p: Protocol, rel: string)
    requires rel in PathsOf(p)
    ensures ConsumerOf(rel).Some?
    ensures ConsumerOf(rel).value.service in ["sing-box"] + p.services
  {
    TableRows(rel);
    hide ConsumerOf;
    if p == VLESS || p == HYSTERIA2 {
      assert "sing-box/" <= rel;
    } else if p == IKEV2 {
      assert rel == "ikev2.env" && rel[0] == 'i';
    } else if rel == "dnstt.env" {
      assert rel[5] == '.';
    } else if rel == "dnstt/server.key" {
      assert "dnstt/" <= rel && rel[0] == 'd';
    } else {
      assert "dnstt-sshd/" <= rel && rel[5] == '-';
    }
  }

  /** Every path a protocol prints is consumed by sing-box or by one of its own services. */
  lemma PrintedPath(p: Protocol, keyring: Keyring, users: seq<User>, rel: string)
    requires Render(p, keyring, users).Ok? && rel in Render(p, keyring, users).value
    ensures ConsumerOf(rel).Some?
    ensures ConsumerOf(rel).value.service in ["sing-box"] + p.services
  {
    hide *;
    PathsPrinted(p, keyring, users);
    OwnPath(p, rel);
  }
}
