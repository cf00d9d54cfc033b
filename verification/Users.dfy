/** The user records and the rules their names obey. */
module Users {
  import opened Wrappers
  import opened Strings

  /**
   `holder` identifies the person a record was created for. The program does not store
   it: it is how the model tells two people apart who used the same name in turn.
   */
  datatype User = User(
    holder: nat,
    name: string,
    vlessUuid: string,
    hysteria2Password: string,
    l2tpPassword: string,
    dnsttPassword: string,
    provisioned: bool,
    enabled: bool)

  // ------------------------------------------------------------------------- names

  predicate Alnum(c: char)
  {
    'A' <= c <= 'Z' || 'a' <= c <= 'z' || '0' <= c <= '9'
  }

  predicate PlainName(name: string)
  {
    && 1 <= |name| <= 32
    && Alnum(name[0])
    && forall i | 0 <= i < |name| :: Alnum(name[i]) || name[i] in ['.', '_', '-']
  }

  /** The pattern ends in `$`, so a single newline after a plain name also matches. */
  predicate Renderable(name: string)
  {
    PlainName(name) ||
    (name != "" && name[|name| - 1] == '\n' && PlainName(name[..|name| - 1]))
  }

  /** Every account the sshd image ships with. */
  const RESERVED: seq<string> := RESERVED_1 + RESERVED_2 + RESERVED_3 + RESERVED_4

  const RESERVED_1: seq<string> := [
    "root", "bin", "daemon", "lp", "sync", "shutdown", "halt", "mail", "news", "uucp", "cron",
    "ftp", "sshd"]

  const RESERVED_2: seq<string> := [
    "games", "ntp", "guest", "nobody", "sys", "adm", "tty", "disk", "kmem", "wheel", "floppy",
    "audio", "cdrom"]

  const RESERVED_3: seq<string> := [
    "dialout", "input", "tape", "video", "netdev", "kvm", "shadow", "www-data", "users", "abuild",
    "utmp", "ping", "nogroup"]

  const RESERVED_4: seq<string> := [
    "tunnel", "operator", "man", "postmaster", "at", "squid", "xfs", "cyrus", "vpopmail", "nut",
    "smmsp"]

  function Lower(s: string): (r: string)
    ensures |r| == |s|
  {
    if s == "" then "" else
      [if 'A' <= s[0] <= 'Z' then (s[0] as int + 32) as char else s[0]] + Lower(s[1..])
  }

  /** The same letter in either case. */
  predicate SameLetter(a: char, b: char)
  {
    || a == b
    || ('A' <= a <= 'Z' && b as int == a as int + 32)
    || ('A' <= b <= 'Z' && a as int == b as int + 32)
  }

  predicate SameButCase(a: string, b: string)
  {
    |a| == |b| && forall i | 0 <= i < |a| :: SameLetter(a[i], b[i])
  }

  /** Two names are one and the same exactly when they differ at most in the case of letters. */
  lemma {:induction false} LowerIgnoresCase(a: string, b: string)
    ensures Lower(a) == Lower(b) <==> SameButCase(a, b)
  {
    if a != "" && b != "" {
      LowerIgnoresCase(a[1..], b[1..]);
      assert Lower(a)[0] == Lower(b)[0] <==> SameLetter(a[0], b[0]);
      assert Lower(a)[1..] == Lower(a[1..]) && Lower(b)[1..] == Lower(b[1..]);
      assert forall i | 0 <= i < |a| - 1 :: a[1..][i] == a[i + 1];
      assert forall i | 0 <= i < |b| - 1 :: b[1..][i] == b[i + 1];
      CaseAfterFirst(a, b);
      assert Lower(a) == [Lower(a)[0]] + Lower(a)[1..] && Lower(b) == [Lower(b)[0]] + Lower(b)[1..];
    } else if a == "" && b != "" {
      assert |Lower(b)| == |b|;
    }
  }

  lemma CaseAfterFirst(a: string, b: string)
    requires a != "" && b != ""
    ensures SameButCase(a, b) <==> SameLetter(a[0], b[0]) && SameButCase(a[1..], b[1..])
  {
    if SameLetter(a[0], b[0]) && SameButCase(a[1..], b[1..]) {
      forall i | 0 <= i < |a| ensures SameLetter(a[i], b[i]) {
        if i > 0 { assert SameLetter(a[1..][i - 1], b[1..][i - 1]); }
      }
    }
    if SameButCase(a, b) {
      forall i | 0 <= i < |a| - 1 ensures SameLetter(a[1..][i], b[1..][i]) {
        assert SameLetter(a[i + 1], b[i + 1]);
      }
    }
  }

  predicate Reserved(name: string)
  {
    Lower(name) in RESERVED
  }

  lemma PlainNameShape(name: string)
    requires PlainName(name)
    ensures NoSpace(name) && name != "" && OneLine(name) && ':' !in name
  {
  }

  /** No reserved name ends in a line break. */
  lemma ReservedEndPlain(name: string)
    requires name in RESERVED
    ensures name != "" && name[|name| - 1] != '\n'
  {
    EndPlainFirst(name);
    EndPlainSecond(name);
    EndPlainThird(name);
    EndPlainFourth(name);
    hide RESERVED_1, RESERVED_2, RESERVED_3, RESERVED_4;
  }

  lemma EndPlainFirst(name: string)
    ensures name in RESERVED_1 ==> name != "" && name[|name| - 1] != '\n'
  {
  }

  lemma EndPlainSecond(name: string)
    ensures name in RESERVED_2 ==> name != "" && name[|name| - 1] != '\n'
  {
  }

  lemma EndPlainThird(name: string)
    ensures name in RESERVED_3 ==> name != "" && name[|name| - 1] != '\n'
  {
  }

  lemma EndPlainFourth(name: string)
    ensures name in RESERVED_4 ==> name != "" && name[|name| - 1] != '\n'
  {
  }

  /** A renderable name is one word, whose only spare character is a trailing newline. */
  lemma RenderableIsOneWord(name: string)
    requires Renderable(name)
    ensures Words(name) == [Strip(name)] && ':' !in name
    ensures OneLine(name) <==> PlainName(name)
  {
    if PlainName(name) {
      PlainNameShape(name);
      hide PlainName, NoSpace, Words, Strip;
      WordsOfWord(name);
      OneWordIsStripped(name);
    } else {
      BrokenNameIsOneWord(name, name[..|name| - 1]);
    }
  }

  lemma BrokenNameIsOneWord(name: string, core: string)
    requires PlainName(core) && name == core + "\n"
    ensures Words(name) == [Strip(name)] && ':' !in name && !OneLine(name)
  {
    PlainNameShape(core);
    hide PlainName, NoSpace, Strip;
    assert Words("") == [] && IsSpace('\n');
    hide Words;
    assert name == core + ['\n'] + "" && name[|core|] == '\n';
    WordsAtSpace(core, '\n', "");
    WordsOfWord(core);
    OneWordIsStripped(name);
  }

  // --------------------------------------------------------------------- the database

  function Enabled(users: seq<User>): (r: seq<User>)
    ensures forall u :: u in r <==> u in users && u.enabled
  {
    if users == [] then [] else
      assert users == [users[0]] + users[1..];
      (if users[0].enabled then [users[0]] else []) + Enabled(users[1..])
  }

  function Names(users: seq<User>): (r: seq<string>)
    ensures |r| == |users| && forall i | 0 <= i < |users| :: r[i] == users[i].name
  {
    if users == [] then [] else [users[0].name] + Names(users[1..])
  }

  /** The first record of that name, ignoring case. */
  function Find(users: seq<User>, name: string): (r: Option<User>)
    ensures r.None? <==> forall u | u in users :: Lower(u.name) != Lower(name)
    ensures r.Some? ==> r.value in users && Lower(r.value.name) == Lower(name)
  {
    if users == [] then None else
      assert users == [users[0]] + users[1..];
      if Lower(users[0].name) == Lower(name) then Some(users[0]) else Find(users[1..], name)
  }

  /** The records left after removing that name, ignoring case. */
  function Without(users: seq<User>, name: string): (r: seq<User>)
    ensures forall u :: u in r <==> u in users && Lower(u.name) != Lower(name)
  {
    if users == [] then [] else
      assert users == [users[0]] + users[1..];
      (if Lower(users[0].name) != Lower(name) then [users[0]] else []) + Without(users[1..], name)
  }
}
