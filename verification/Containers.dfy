/**
 What a container holds, and what starting, creating and losing one does to it. These are
 the rules of compose.yml and of the container runtime that the rest of the model builds on.
 */
module Containers {
  import opened Wrappers
  import opened Strings
  import opened Rendering
  import opened TreeDiff

  /**
   `mounts` is the bind-mounted part of the tree as of the last start, `env` the env files as
   of creation. `accounts` is the login database in the writable layer of the dnstt sshd.
   */
  datatype Container = Container(
    id: nat,
    running: bool,
    mounts: Tree,
    env: Tree,
    accounts: map<string, string>)

  type Containers = map<string, Container>

  // -------------------------------------------------------------- delivery of rendered files

  datatype Delivery = BindMount | EnvFile

  /** How compose.yml hands a rendered file to a service. */
  function DeliveryOf(rel: string): Option<(string, Delivery)>
  {
    if "sing-box/" <= rel then Some(("sing-box", BindMount))
    else if "dnstt/" <= rel then Some(("dnstt", BindMount))
    else if "dnstt-sshd/" <= rel then Some(("dnstt-sshd", BindMount))
    else if rel == "dnstt.env" then Some(("dnstt-sshd", EnvFile))
    else if rel == "ikev2.env" then Some(("ikev2", EnvFile))
    else None
  }

  const SSHD := "dnstt-sshd"
  const LOGINS := "dnstt-sshd/logins"

  /** The sshd's entrypoint only ever adds accounts: its state is not a function of its input. */
  predicate Accumulates(service: string)
  {
    service == SSHD
  }

  /**
   The consumer table says the right thing about every path: it names the service compose.yml
   delivers the file to, and asks for a new container exactly where a restart is not enough.
   */
  lemma TableMatchesDelivery(rel: string)
    ensures ConsumerOf(rel).Some? <==> DeliveryOf(rel).Some?
    ensures ConsumerOf(rel).Some? ==>
      && ConsumerOf(rel).value.service == DeliveryOf(rel).value.0
      && (ConsumerOf(rel).value.how == Recreate
          <==> DeliveryOf(rel).value.1 == EnvFile || Accumulates(DeliveryOf(rel).value.0))
  {
    TableRows(rel);
  }

  function Part(t: Tree, service: string, how: Delivery): Tree
  {
    map rel | rel in t && DeliveryOf(rel) == Some((service, how)) :: t[rel]
  }

  function AccountsOf(records: seq<(string, string)>): map<string, string>
  {
    if records == [] then map[]
    else map[records[0].0 := records[0].1] + AccountsOf(records[1..])
  }

  /** The accounts one start adds: chpasswd runs for every record, nothing is ever deleted. */
  function Enroll(t: Tree, service: string, accounts: map<string, string>): map<string, string>
  {
    if service == SSHD && LOGINS in t && t[LOGINS].Text? then
      accounts + AccountsOf(ReadRecords(':', t[LOGINS].text))
    else accounts
  }

  function Created(t: Tree, service: string, id: nat): Container
  {
    Container(id, true, Part(t, service, BindMount), Part(t, service, EnvFile), Enroll(t, service, map[]))
  }

  /** A start re-reads the mounts, and keeps the environment and the writable layer. */
  function Started(t: Tree, service: string, c: Container): Container
  {
    c.(running := true, mounts := Part(t, service, BindMount), accounts := Enroll(t, service, c.accounts))
  }

  /** The container holds exactly what a freshly created one would read from the tree. */
  predicate Current(t: Tree, service: string, c: Container)
  {
    var made := Created(t, service, c.id);
    c.mounts == made.mounts && c.env == made.env && c.accounts == made.accounts
  }

  /** sing-box and dnstt are given no env file and keep no state. */
  predicate Shaped(service: string, c: Container)
  {
    Mountable(service) ==> c.env == map[] && c.accounts == map[]
  }

  predicate WellFormed(cs: Containers, nextId: nat)
  {
    forall s | s in cs :: cs[s].id < nextId && Shaped(s, cs[s])
  }

  lemma CreatedIsShaped(t: Tree, service: string, id: nat)
    ensures Current(t, service, Created(t, service, id))
    ensures Shaped(service, Created(t, service, id))
  {
    if Mountable(service) {
      assert forall rel :: DeliveryOf(rel) != Some((service, EnvFile));
      assert Part(t, service, EnvFile) == map[];
    }
  }

  /** A second start from the same tree changes nothing more. */
  lemma EnrollTwice(t: Tree, service: string, accounts: map<string, string>)
    ensures Enroll(t, service, Enroll(t, service, accounts)) == Enroll(t, service, accounts)
  {
    hide AccountsOf, ReadRecords;
  }

  /** For a service that keeps nothing across a restart, a restart is as good as a new container. */
  lemma RestartIsEnough(t: Tree, service: string, c: Container)
    requires Mountable(service) && Shaped(service, c)
    requires c.mounts == Part(t, service, BindMount)
    ensures Current(t, service, c)
  {
    CreatedIsShaped(t, service, c.id);
  }

  /** Byte-identical inputs are the same thing to be current with. */
  lemma SameInputsSameCurrent(a: Tree, b: Tree, service: string, c: Container)
    requires FilesOf(a, service) == FilesOf(b, service)
    requires Current(a, service, c)
    ensures Current(b, service, c)
  {
    hide ConsumerOf, DeliveryOf, ReadRecords, AccountsOf;
    forall rel, how | DeliveryOf(rel) == Some((service, how))
      ensures rel in a <==> rel in b
      ensures rel in a ==> a[rel] == b[rel]
    {
      TableMatchesDelivery(rel);
      assert rel in a <==> rel in FilesOf(a, service);
      assert rel in b <==> rel in FilesOf(b, service);
      if rel in a { assert FilesOf(a, service)[rel] == a[rel]; }
      if rel in b { assert FilesOf(b, service)[rel] == b[rel]; }
    }
    assert Part(a, service, BindMount) == Part(b, service, BindMount);
    assert Part(a, service, EnvFile) == Part(b, service, EnvFile);
    if service == SSHD {
      LoginsAreMounted();
      assert DeliveryOf(LOGINS) == Some((service, BindMount));
    }
  }

  lemma LoginsAreMounted()
    ensures DeliveryOf(LOGINS) == Some((SSHD, BindMount))
  {
    assert LOGINS[0] == 'd' && LOGINS[5] == '-' && "dnstt-sshd/" <= LOGINS;
  }

  // ---------------------------------------------------------------- what the host may do

  datatype HostAct = StopIt(service: string) | StartIt(service: string) | RemoveIt(service: string)

  /** One thing the host does to a container between two commands. */
  function Act(t: Tree, cs: Containers, act: HostAct): Containers
  {
    if act.service !in cs then cs else
      match act
      case StopIt(s) => cs[s := cs[s].(running := false)]
      case StartIt(s) => if cs[s].running then cs else cs[s := Started(t, s, cs[s])]
      case RemoveIt(s) => cs - {s}
  }

  function Acts(t: Tree, cs: Containers, acts: seq<HostAct>): Containers
  {
    if acts == [] then cs else Acts(t, Act(t, cs, acts[0]), acts[1..])
  }

  /** The same container, with its last start before or after the change of hands. */
  predicate CarriedOver(t: Tree, service: string, c: Container, c': Container)
  {
    && c'.id == c.id
    && c'.env == c.env
    && ((c'.mounts == c.mounts && c'.accounts == c.accounts) ||
        (c'.mounts == Part(t, service, BindMount) && c'.accounts == Enroll(t, service, c.accounts)))
  }

  ghost predicate Drifted(t: Tree, cs: Containers, cs': Containers)
  {
    forall s | s in cs' :: s in cs && CarriedOver(t, s, cs[s], cs'[s])
  }

  lemma CarriedOverTwice(t: Tree, service: string, a: Container, b: Container, c: Container)
    requires CarriedOver(t, service, a, b) && CarriedOver(t, service, b, c)
    ensures CarriedOver(t, service, a, c)
  {
    EnrollTwice(t, service, a.accounts);
  }

  /** Whatever sequence of stops, starts and removals the host performs is a drift. */
  lemma {:induction false} HostActsAreDrift(t: Tree, cs: Containers, acts: seq<HostAct>)
    ensures Drifted(t, cs, Acts(t, cs, acts))
    decreases |acts|
  {
    if acts != [] {
      var mid := Act(t, cs, acts[0]);
      HostActsAreDrift(t, mid, acts[1..]);
      var end := Acts(t, mid, acts[1..]);
      forall s | s in end ensures s in cs && CarriedOver(t, s, cs[s], end[s]) {
        assert CarriedOver(t, s, cs[s], mid[s]);
        CarriedOverTwice(t, s, cs[s], mid[s], end[s]);
      }
    }
  }

  /** What is current with the live tree stays so whatever the host does. */
  lemma CurrentSurvives(t: Tree, service: string, c: Container, c': Container)
    requires Current(t, service, c) && CarriedOver(t, service, c, c')
    ensures Current(t, service, c')
  {
    EnrollTwice(t, service, map[]);
  }

  lemma DriftKeepsShape(t: Tree, cs: Containers, cs': Containers, nextId: nat)
    requires WellFormed(cs, nextId) && Drifted(t, cs, cs')
    ensures WellFormed(cs', nextId)
  {
    hide ReadRecords, AccountsOf;
    forall s | s in cs' ensures cs'[s].id < nextId && Shaped(s, cs'[s]) {
      assert CarriedOver(t, s, cs[s], cs'[s]);
    }
  }
}
