/**
 IKEv2 certificates. The container holds at most one certificate per name, valid or revoked; a
 revoked name stays reserved until it is deleted, and deleting a certificate that was never
 revoked leaves it accepted while nothing lists it any more.
 */
module Certificates {
  import opened Strings

  /** `holder` is the person the certificate was issued to. */
  datatype Cert = Cert(holder: nat, revoked: bool)

  type Listed = map<string, Cert>

  function ValidNames(certs: Listed): set<string>
  {
    set n | n in certs && !certs[n].revoked
  }

  function RevokedNames(certs: Listed): set<string>
  {
    set n | n in certs && certs[n].revoked
  }

  // ------------------------------------------------------------------ the client listing

  function Row(name: string, cert: Cert): string
  {
    name + " " + if cert.revoked then "revoked" else "valid"
  }

  /** A header whose first field is `Client`, then a row for each certificate, in any order. */
  function ListingLines(order: seq<string>, certs: Listed): seq<string>
    requires forall n | n in order :: n in certs
  {
    ["Client status"] + Rows(order, certs)
  }

  function Rows(order: seq<string>, certs: Listed): (r: seq<string>)
    requires forall n | n in order :: n in certs
    ensures |r| == |order| && forall i | 0 <= i < |order| :: r[i] == Row(order[i], certs[order[i]])
  {
    if order == [] then [] else
      assert order == [order[0]] + order[1..];
      [Row(order[0], certs[order[0]])] + Rows(order[1..], certs)
  }

  ghost predicate IsListing(lines: seq<string>, certs: Listed)
  {
    exists order: seq<string> :: Lists(order, certs) && lines == ListingLines(order, certs)
  }

  ghost predicate Lists(order: seq<string>, certs: Listed)
  {
    forall n :: n in order <==> n in certs
  }

  /** What one line contributes: a name and whether its status reads as the wanted one. */
  predicate RowSays(line: string, name: string, status: string)
  {
    var parts := Words(line);
    |parts| >= 2 && parts[0] != "Client" && parts[0] == name && parts[1] == status
  }

  method ParseClients(lines: seq<string>) returns (valid: set<string>, revoked: set<string>)
    ensures forall n :: n in valid <==> exists i :: 0 <= i < |lines| && RowSays(lines[i], n, "valid")
    ensures forall n :: n in revoked <==> exists i :: 0 <= i < |lines| && RowSays(lines[i], n, "revoked")
  {
    hide Words;
    valid, revoked := {}, {};
    for i := 0 to |lines|
      invariant forall n :: n in valid <==> exists k :: 0 <= k < i && RowSays(lines[k], n, "valid")
      invariant forall n :: n in revoked <==> exists k :: 0 <= k < i && RowSays(lines[k], n, "revoked")
    {
      var parts := Words(lines[i]);
      assert "valid"[0] == 'v' && "revoked"[0] == 'r';
      if |parts| < 2 || parts[0] == "Client" {
        assert forall n, s :: !RowSays(lines[i], n, s);
        continue;
      }
      if parts[1] == "valid" {
        assert RowSays(lines[i], parts[0], "valid");
        valid := valid + {parts[0]};
      } else if parts[1] == "revoked" {
        assert RowSays(lines[i], parts[0], "revoked");
        revoked := revoked + {parts[0]};
      }
    }
  }

  /** A name the listing can carry as one field. */
  predicate OneField(name: string)
  {
    NoSpace(name) && name != ""
  }

  lemma RowParses(name: string, cert: Cert, n: string)
    requires OneField(name)
    ensures RowSays(Row(name, cert), n, "valid") <==> n == name && name != "Client" && !cert.revoked
    ensures RowSays(Row(name, cert), n, "revoked") <==> n == name && name != "Client" && cert.revoked
  {
    hide IsSpace;
    var status := if cert.revoked then "revoked" else "valid";
    assert Row(name, cert) == name + [' '] + status;
    assert "valid"[0] == 'v' && "revoked"[0] == 'r';
    SpaceIsSpace();
    WordsAtSpace(name, ' ', status);
    WordsOfWord(name);
    StatusWords();
    WordsOfWord(status);
  }

  lemma SpaceIsSpace()
    ensures IsSpace(' ')
  {
  }

  lemma StatusWords()
    ensures NoSpace("valid") && NoSpace("revoked")
  {
    LettersAreNoSpace("valid");
    LettersAreNoSpace("revoked");
  }

  lemma LettersAreNoSpace(s: string)
    requires forall i | 0 <= i < |s| :: 'a' <= s[i] <= 'z'
    ensures NoSpace(s)
  {
  }

  lemma HeaderSaysNothing(n: string, status: string)
    ensures !RowSays("Client status", n, status)
  {
    hide IsSpace;
    assert "Client status" == "Client" + [' '] + "status";
    SpaceIsSpace();
    HeaderWords();
    WordsAtSpace("Client", ' ', "status");
    WordsOfWord("Client");
  }

  lemma HeaderWords()
    ensures NoSpace("Client") && NoSpace("status")
  {
  }

  ghost predicate SomeRowSays(lines: seq<string>, n: string, status: string)
  {
    exists i :: 0 <= i < |lines| && RowSays(lines[i], n, status)
  }

  function Status(revoked: bool): string
  {
    if revoked then "revoked" else "valid"
  }

  lemma RowFor(line: string, name: string, cert: Cert, n: string, revoked: bool)
    requires OneField(name) && line == Row(name, cert)
    ensures RowSays(line, n, Status(revoked)) <==> n == name && name != "Client" && cert.revoked == revoked
  {
    hide Words, RowSays, Row;
    RowParses(name, cert, n);
  }

  lemma RowsSay(lines: seq<string>, order: seq<string>, certs: Listed, n: string, revoked: bool)
    requires Lists(order, certs) && lines == ListingLines(order, certs)
    requires forall m | m in certs :: OneField(m)
    ensures SomeRowSays(lines, n, Status(revoked)) <==> n in certs && certs[n].revoked == revoked && n != "Client"
  {
    hide Words, RowSays, Row, OneField, Status;
    HeaderSaysNothing(n, Status(revoked));
    if SomeRowSays(lines, n, Status(revoked)) {
      var i :| 0 <= i < |lines| && RowSays(lines[i], n, Status(revoked));
      RowFor(lines[i], order[i - 1], certs[order[i - 1]], n, revoked);
    }
    if n in certs && certs[n].revoked == revoked && n != "Client" {
      var i :| 0 <= i < |order| && order[i] == n;
      RowFor(lines[i + 1], n, certs[n], n, revoked);
    }
  }

  /** What the parser makes of a listing: every certificate but one issued to `Client`. */
  lemma ListingParses(lines: seq<string>, certs: Listed, n: string)
    requires IsListing(lines, certs) && forall m | m in certs :: OneField(m)
    ensures SomeRowSays(lines, n, "valid") <==> n in ValidNames(certs) && n != "Client"
    ensures SomeRowSays(lines, n, "revoked") <==> n in RevokedNames(certs) && n != "Client"
  {
    hide SomeRowSays, OneField, Rows;
    var order: seq<string> :| Lists(order, certs) && lines == ListingLines(order, certs);
    RowsSay(lines, order, certs, n, false);
    RowsSay(lines, order, certs, n, true);
  }

}
