/**
 Generating the keyring. A secret is known by the minting it came out of: the halves of one
 pair agree exactly when one minting made them. A file that is there but empty is what an
 interruption can leave, and does not count as a secret.
 */
module Bootstrap {
  import opened Wrappers
  import opened Strings

  datatype Secret = Secret(name: string, mint: nat)

  type Files = map<string, Option<Secret>>

  /** What one protocol mints together, and which of it is a function of something else in it. */
  datatype Minter = Minter(protocol: string, produced: seq<string>, derivable: map<string, string>)

  const MINTERS: seq<Minter> := [
    Minter("vless-reality", ["reality.key", "reality.pub", "reality.short_id"],
           map["reality.pub" := "reality.key"]),
    Minter("hysteria2", ["hysteria2.crt", "hysteria2.key", "hysteria2.obfs"], map[]),
    Minter("ikev2", ["ipsec.psk", "ipsec.primary_user", "ipsec.primary_password"], map[]),
    Minter("dnstt", [], map[])]

  /** What something is derived from is minted beside it, and never derived itself. */
  ghost predicate SourcesAreMinted(m: Minter)
  {
    forall n | n in m.derivable :: m.derivable[n] in m.produced && m.derivable[n] !in m.derivable
  }

  ghost predicate Separate(ms: seq<Minter>)
  {
    && (forall i, j, n | 0 <= i < j < |ms| && n in ms[i].produced :: n !in ms[j].produced)
    && (forall m | m in ms :: SourcesAreMinted(m))
  }

  lemma MintersAreSeparate()
    ensures Separate(MINTERS)
  {
    forall i, j, n | 0 <= i < j < |MINTERS| && n in MINTERS[i].produced ensures n !in MINTERS[j].produced {
      if i == 0 { assert n[0] == 'r'; } else if i == 1 { assert n[0] == 'h'; }
    }
    assert "reality.key" in MINTERS[0].produced by { assert MINTERS[0].produced[0] == "reality.key"; }
  }

  predicate Has(fs: Files, n: string)
  {
    n in fs && fs[n].Some?
  }

  predicate SameAt(a: Files, b: Files, n: string)
  {
    (n in a <==> n in b) && (n in a ==> a[n] == b[n])
  }

  /** All the secrets of the protocol that are there came out of one minting. */
  ghost predicate CoherentSet(fs: Files, m: Minter)
  {
    forall a, b | a in m.produced && b in m.produced && Has(fs, a) && Has(fs, b) ::
      fs[a].value.mint == fs[b].value.mint
  }

  ghost predicate Coherent(fs: Files, ms: seq<Minter>)
  {
    forall m | m in ms :: CoherentSet(fs, m)
  }

  /** Every secret is filed under its own name, and was minted before now. */
  ghost predicate Genuine(fs: Files, now: nat)
  {
    forall n | Has(fs, n) :: fs[n].value.name == n && fs[n].value.mint < now
  }

  predicate Survives(fs: Files, m: Minter)
  {
    exists n | n in m.produced :: Has(fs, n)
  }

  /** A gap that can be rebuilt from a secret that is still there. */
  predicate Rebuildable(fs: Files, m: Minter, n: string)
  {
    n in m.derivable && Has(fs, m.derivable[n])
  }

  /** A half-present set with a gap that only a fresh minting could fill. */
  predicate Damaged(fs: Files, m: Minter)
  {
    Survives(fs, m) && exists n | n in m.produced :: !Has(fs, n) && !Rebuildable(fs, m, n)
  }

  function Refusals(fs: Files, ms: seq<Minter>): (r: seq<string>)
    ensures forall q :: q in r <==> exists m :: m in ms && Damaged(fs, m) && m.protocol == q
  {
    if ms == [] then [] else
      assert ms == [ms[0]] + ms[1..];
      (if Damaged(fs, ms[0]) then [ms[0].protocol] else []) + Refusals(fs, ms[1..])
  }

  function AllNames(ms: seq<Minter>): seq<string>
  {
    if ms == [] then [] else ms[0].produced + AllNames(ms[1..])
  }

  // ------------------------------------------------------------------ what a call may do

  ghost predicate Rebuilt(m: Minter, before: Files, after: Files, n: string)
  {
    && !Has(before, n) && Rebuildable(before, m, n)
    && Has(after, n) && after[n].value == Secret(n, before[m.derivable[n]].value.mint)
  }

  /** One protocol, unforced, wherever the call was cut off. */
  ghost predicate GentleAt(m: Minter, before: Files, after: Files, mint: nat)
  {
    forall n | n in m.produced ::
      || SameAt(before, after, n)
      || (if Survives(before, m) then Rebuilt(m, before, after, n)
          else Has(after, n) && after[n].value == Secret(n, mint))
  }

  /** One protocol, unforced, gone through. */
  ghost predicate DoneAt(m: Minter, before: Files, after: Files, mint: nat)
  {
    forall n | n in m.produced ::
      if Survives(before, m) then
        if !Has(before, n) && Rebuildable(before, m, n) then Rebuilt(m, before, after, n)
        else SameAt(before, after, n)
      else Has(after, n) && after[n].value == Secret(n, mint)
  }

  ghost predicate Elsewhere(ms: seq<Minter>, before: Files, after: Files)
  {
    forall n | n !in AllNames(ms) :: SameAt(before, after, n)
  }

  ghost predicate Gentle(ms: seq<Minter>, before: Files, after: Files, mint: nat)
  {
    Elsewhere(ms, before, after) && forall m | m in ms :: GentleAt(m, before, after, mint)
  }

  ghost predicate GentleDone(ms: seq<Minter>, before: Files, after: Files, mint: nat)
  {
    Elsewhere(ms, before, after) && forall m | m in ms :: DoneAt(m, before, after, mint)
  }

  function Overwritten(fs: Files, names: seq<string>, mint: nat): Files
  {
    map n | n in fs.Keys + SetOf(names) :: if n in names then Some(Secret(n, mint)) else fs[n]
  }

  lemma {:induction false} AllNamesIn(ms: seq<Minter>, n: string)
    ensures n in AllNames(ms) <==> exists m :: m in ms && n in m.produced
  {
    if ms != [] {
      assert ms == [ms[0]] + ms[1..];
      AllNamesIn(ms[1..], n);
    }
  }

  // --------------------------------------------------------------- coherence over every run

  lemma GentleKeepsSet(m: Minter, before: Files, after: Files, mint: nat)
    requires GentleAt(m, before, after, mint) && CoherentSet(before, m)
    requires SourcesAreMinted(m)
    ensures CoherentSet(after, m)
  {
    if Survives(before, m) {
      forall a, b | a in m.produced && b in m.produced && Has(after, a) && Has(after, b)
        ensures after[a].value.mint == after[b].value.mint
      {
        assert Rebuilt(m, before, after, a) || SameAt(before, after, a);
        assert Rebuilt(m, before, after, b) || SameAt(before, after, b);
      }
    } else {
      assert forall n | n in m.produced && Has(after, n) :: after[n].value == Secret(n, mint);
    }
  }

  /** An unforced call never mixes halves, wherever it is cut off. */
  lemma GentleKeepsCoherent(ms: seq<Minter>, before: Files, after: Files, mint: nat)
    requires Separate(ms) && Gentle(ms, before, after, mint)
    requires Coherent(before, ms) && Genuine(before, mint)
    ensures Coherent(after, ms) && Genuine(after, mint + 1)
  {
    forall m | m in ms ensures CoherentSet(after, m) {
      GentleKeepsSet(m, before, after, mint);
    }
    forall n | Has(after, n) ensures after[n].value.name == n && after[n].value.mint < mint + 1 {
      AllNamesIn(ms, n);
      if n in AllNames(ms) {
        var m :| m in ms && n in m.produced;
        assert GentleAt(m, before, after, mint);
        assert SameAt(before, after, n) || Rebuilt(m, before, after, n) || after[n].value == Secret(n, mint);
      }
    }
  }

  ghost predicate Lost(before: Files, after: Files)
  {
    forall n | n in after :: n in before && (after[n] == before[n] || after[n] == None)
  }

  /** Files are lost or cut to nothing, or a bootstrap is run: unforced and cut anywhere, or forced to its end. */
  ghost predicate KeyringStep(ms: seq<Minter>, before: Files, after: Files, mint: nat)
  {
    Lost(before, after) || Gentle(ms, before, after, mint) || after == Overwritten(before, AllNames(ms), mint)
  }

  lemma ForcedIsCoherent(ms: seq<Minter>, before: Files, mint: nat)
    requires Genuine(before, mint)
    ensures Coherent(Overwritten(before, AllNames(ms), mint), ms)
    ensures Genuine(Overwritten(before, AllNames(ms), mint), mint + 1)
  {
    var after := Overwritten(before, AllNames(ms), mint);
    forall m, a | m in ms && a in m.produced ensures Has(after, a) && after[a].value.mint == mint {
      AllNamesIn(ms, a);
    }
    forall n | Has(after, n) ensures after[n].value.name == n && after[n].value.mint < mint + 1 {
      assert n in AllNames(ms) || Has(before, n);
    }
  }

  /** Keyring coherence, at every point of every run; its steps mint under the numbers from `mint` on. */
  lemma {:induction false} KeyringCoherence(ms: seq<Minter>, run: seq<Files>, mint: nat, i: nat)
    requires Separate(ms) && i < |run|
    requires forall k | 0 <= k < |run| - 1 :: KeyringStep(ms, run[k], run[k + 1], mint + k)
    requires Coherent(run[0], ms) && Genuine(run[0], mint)
    ensures Coherent(run[i], ms) && Genuine(run[i], mint + i)
    decreases i
  {
    hide Coherent, Genuine, Separate, Gentle;
    if i > 0 {
      KeyringCoherence(ms, run, mint, i - 1);
      assert KeyringStep(ms, run[i - 1], run[i], mint + (i - 1));
      StepKeepsCoherent(ms, run[i - 1], run[i], mint + (i - 1));
    }
  }

  lemma StepKeepsCoherent(ms: seq<Minter>, before: Files, after: Files, mint: nat)
    requires Separate(ms) && KeyringStep(ms, before, after, mint)
    requires Coherent(before, ms) && Genuine(before, mint)
    ensures Coherent(after, ms) && Genuine(after, mint + 1)
  {
    if Lost(before, after) {
      forall m | m in ms ensures CoherentSet(after, m) {
        assert CoherentSet(before, m);
      }
    } else if Gentle(ms, before, after, mint) {
      GentleKeepsCoherent(ms, before, after, mint);
    } else {
      ForcedIsCoherent(ms, before, mint);
    }
  }

  /**
   A forced call that is cut off can mix two mintings. It leaves a coherent keyring exactly when
   no protocol was cut in the middle while a secret of its earlier minting was still there.
   */
  lemma ForcedCutIff(ms: seq<Minter>, before: Files, written: seq<string>, mint: nat)
    requires Coherent(before, ms) && Genuine(before, mint)
    ensures Coherent(Overwritten(before, written, mint), ms) <==>
      forall m, a, b | m in ms && a in m.produced && b in m.produced ::
        a in written && b !in written ==> !Has(before, b)
  {
    var after := Overwritten(before, written, mint);
    if Coherent(after, ms) {
      forall m, a, b | m in ms && a in m.produced && b in m.produced && a in written && b !in written
        ensures !Has(before, b)
      {
        assert CoherentSet(after, m);
        assert Has(after, a) && after[a].value.mint == mint;
        assert Has(before, b) ==> SameAt(before, after, b);
      }
    }
    if forall m, a, b | m in ms && a in m.produced && b in m.produced ::
        a in written && b !in written ==> !Has(before, b)
    {
      forall m | m in ms ensures CoherentSet(after, m) {
        assert CoherentSet(before, m);
        forall a, b | a in m.produced && b in m.produced && Has(after, a) && Has(after, b)
          ensures after[a].value.mint == after[b].value.mint
        {
          assert a in written || SameAt(before, after, a);
          assert b in written || SameAt(before, after, b);
        }
      }
    }
  }

  /** No protocol lists a file twice. */
  ghost predicate NoRepeatedFiles(ms: seq<Minter>)
  {
    forall m | m in ms :: NoRepeats(m.produced)
  }

  lemma MintersRepeatNothing()
    ensures NoRepeatedFiles(MINTERS)
  {
    var a, b, c := MINTERS[0].produced, MINTERS[1].produced, MINTERS[2].produced;
    assert |a[0]| == 11 && |a[1]| == 11 && |a[2]| == 16 && a[0][8] == 'k' && a[1][8] == 'p';
    assert |b[0]| == 13 && |b[1]| == 13 && |b[2]| == 14 && b[0][10] == 'c' && b[1][10] == 'k';
    assert |c[0]| == 9 && |c[1]| == 18 && |c[2]| == 22;
  }

  /** All that is left of an earlier minting is the file that is written first. */
  ghost predicate OnlyFirstIsOld(fs: Files, m: Minter)
  {
    forall j | 1 <= j < |m.produced| :: !Has(fs, m.produced[j])
  }

  /**
   What can be checked before `--force`. However far it gets, the keyring stays coherent exactly
   when no protocol holds a secret other than the one that is written first.
   */
  lemma EveryForcedCutIff(ms: seq<Minter>, before: Files, mint: nat)
    requires Separate(ms) && NoRepeatedFiles(ms) && Coherent(before, ms) && Genuine(before, mint)
    ensures (forall k | 0 <= k <= |AllNames(ms)| :: Coherent(Overwritten(before, AllNames(ms)[..k], mint), ms)) <==>
      forall m | m in ms :: OnlyFirstIsOld(before, m)
  {
    hide Coherent, Genuine, Overwritten, OnlyFirstIsOld;
    if forall m | m in ms :: OnlyFirstIsOld(before, m) {
      forall k | 0 <= k <= |AllNames(ms)| ensures Coherent(Overwritten(before, AllNames(ms)[..k], mint), ms) {
        AnyCutIsCoherent(ms, before, mint, k);
      }
    } else {
      var i :| 0 <= i < |ms| && !OnlyFirstIsOld(before, ms[i]);
      SomeCutMixes(ms, before, mint, i);
    }
  }

  /** For the protocols there are. */
  lemma ForcedBootstrapIsSafeIff(before: Files, mint: nat)
    requires Coherent(before, MINTERS) && Genuine(before, mint)
    ensures (forall k | 0 <= k <= |AllNames(MINTERS)| ::
               Coherent(Overwritten(before, AllNames(MINTERS)[..k], mint), MINTERS)) <==>
      forall m | m in MINTERS :: OnlyFirstIsOld(before, m)
  {
    MintersAreSeparate();
    MintersRepeatNothing();
    hide *;
    EveryForcedCutIff(MINTERS, before, mint);
  }

  /** Where the j-th file of the i-th protocol stands among all of them. */
  lemma PlaceOf(ms: seq<Minter>, i: nat, j: nat)
    requires i < |ms| && j < |ms[i].produced|
    ensures var at := |AllNames(ms[..i])| + j;
      && at < |AllNames(ms)| && AllNames(ms)[at] == ms[i].produced[j]
      && AllNames(ms)[..at] == AllNames(ms[..i]) + ms[i].produced[..j]
  {
    AllNamesSplit(ms, i);
    assert ms[i..][0] == ms[i];
    assert AllNames(ms[i..]) == ms[i].produced + AllNames(ms[i..][1..]);
  }

  lemma NotBefore(ms: seq<Minter>, i: nat, j: nat)
    requires Separate(ms) && NoRepeatedFiles(ms) && i < |ms| && j < |ms[i].produced|
    ensures ms[i].produced[j] !in AllNames(ms[..i]) + ms[i].produced[..j]
  {
    assert ms[i] in ms;
    EarlierProtocolsDiffer(ms, i, ms[i].produced[j]);
  }

  lemma AnyCutIsCoherent(ms: seq<Minter>, before: Files, mint: nat, k: nat)
    requires Separate(ms) && Coherent(before, ms) && Genuine(before, mint) && k <= |AllNames(ms)|
    requires forall m | m in ms :: OnlyFirstIsOld(before, m)
    ensures Coherent(Overwritten(before, AllNames(ms)[..k], mint), ms)
  {
    hide Coherent, Genuine, Overwritten, Separate, Has;
    var written := AllNames(ms)[..k];
    forall m, a, b | m in ms && a in m.produced && b in m.produced && a in written && b !in written
      ensures !Has(before, b)
    {
      var i :| 0 <= i < |ms| && ms[i] == m;
      var j :| 0 <= j < |m.produced| && m.produced[j] == b;
      if j == 0 {
        FirstIsWrittenFirst(ms, i, k, a);
      } else {
        assert OnlyFirstIsOld(before, m);
      }
    }
    ForcedCutIff(ms, before, written, mint);
  }

  /** A cut that has written any file of a protocol has written its first one. */
  lemma FirstIsWrittenFirst(ms: seq<Minter>, i: nat, k: nat, a: string)
    requires Separate(ms) && i < |ms| && k <= |AllNames(ms)|
    requires a in ms[i].produced && a in AllNames(ms)[..k]
    ensures ms[i].produced[0] in AllNames(ms)[..k]
  {
    PlaceOf(ms, i, 0);
    var at := |AllNames(ms[..i])|;
    var x :| 0 <= x < k && AllNames(ms)[x] == a;
    if x < at {
      AllNamesSplit(ms, i);
      assert AllNames(ms[..i])[x] == a;
      EarlierProtocolsDiffer(ms, i, a);
    }
    assert AllNames(ms)[..k][at] == ms[i].produced[0];
  }

  lemma EarlierProtocolsDiffer(ms: seq<Minter>, i: nat, a: string)
    requires Separate(ms) && i < |ms| && a in ms[i].produced
    ensures a !in AllNames(ms[..i])
  {
    AllNamesIn(ms[..i], a);
    forall m | m in ms[..i] ensures a !in m.produced {
      var i' :| 0 <= i' < i && ms[i'] == m;
    }
  }

  /** Cut just before a file that is still there from an earlier minting. */
  lemma SomeCutMixes(ms: seq<Minter>, before: Files, mint: nat, i: nat)
    requires Separate(ms) && NoRepeatedFiles(ms) && Coherent(before, ms) && Genuine(before, mint)
    requires i < |ms| && !OnlyFirstIsOld(before, ms[i])
    ensures exists k :: 0 <= k <= |AllNames(ms)| && !Coherent(Overwritten(before, AllNames(ms)[..k], mint), ms)
  {
    hide Coherent, Genuine, Overwritten, Separate, NoRepeatedFiles, Has;
    var m := ms[i];
    var j :| 1 <= j < |m.produced| && Has(before, m.produced[j]);
    PlaceOf(ms, i, j);
    NotBefore(ms, i, j);
    var k := |AllNames(ms[..i])| + j;
    var written := AllNames(ms)[..k];
    assert m.produced[..j][0] == m.produced[0] && m.produced[0] in written;
    assert m in ms && m.produced[0] in m.produced && m.produced[j] in m.produced && m.produced[j] !in written;
    ForcedCutIff(ms, before, written, mint);
    assert !Coherent(Overwritten(before, AllNames(ms)[..k], mint), ms);
  }

  // ------------------------------------------------------------------- repeating a call

  /** Nothing is left that an unforced call would write. */
  ghost predicate NothingToWrite(fs: Files, ms: seq<Minter>)
  {
    forall m, n | m in ms && n in m.produced ::
      Has(fs, n) || (Survives(fs, m) && !Rebuildable(fs, m, n))
  }

  /** A call that was not cut off leaves nothing for a repetition of it to write. */
  lemma DoneIsSettled(ms: seq<Minter>, before: Files, after: Files, mint: nat)
    requires Separate(ms) && GentleDone(ms, before, after, mint)
    ensures NothingToWrite(after, ms)
    ensures forall m | m in ms :: Damaged(after, m) <==> Damaged(before, m)
  {
    forall m | m in ms
      ensures forall n | n in m.produced :: Has(after, n) || (Survives(after, m) && !Rebuildable(after, m, n))
      ensures Damaged(after, m) <==> Damaged(before, m)
    {
      DoneSetIsSettled(m, before, after, mint);
    }
  }

  lemma DoneSetIsSettled(m: Minter, before: Files, after: Files, mint: nat)
    requires DoneAt(m, before, after, mint)
    requires SourcesAreMinted(m)
    ensures forall n | n in m.produced :: Has(after, n) || (Survives(after, m) && !Rebuildable(after, m, n))
    ensures Damaged(after, m) <==> Damaged(before, m)
  {
    if Survives(before, m) {
      var s :| s in m.produced && Has(before, s);
      assert Has(after, s) && Survives(after, m);
      forall n | n in m.produced
        ensures Has(after, n) <==> Has(before, n) || Rebuildable(before, m, n)
      {
      }
      assert forall n | n in m.derivable && Has(after, m.derivable[n]) :: SameAt(before, after, m.derivable[n]);
    } else {
      assert forall n | n in m.produced :: Has(after, n);
    }
  }

  // -------------------------------------------------------------------------- the code

  class KeyringDir {
    var files: Files
    var log: seq<string>
    /** Every write works. */
    const obliging: bool

    constructor (obliging: bool)
      ensures files == map[] && log == [] && this.obliging == obliging
    {
      files, log := map[], [];
      this.obliging := obliging;
    }

    /** Written beside its place and moved into it: the old content, or the whole new one. */
    method Write(name: string, content: Secret) returns (ok: bool)
      modifies this
      ensures files == if ok then old(files)[name := Some(content)] else old(files)
      ensures log == if ok then old(log) + [name] else old(log)
      ensures obliging ==> ok
    {
      ok := *;
      ok := ok || obliging;
      if ok {
        files, log := files[name := Some(content)], log + [name];
      }
    }
  }

  /** Every secret of one minting, in order, until a write fails. */
  method WriteSet(dir: KeyringDir, names: seq<string>, mint: nat) returns (ok: bool, written: seq<string>)
    modifies dir
    ensures written <= names && (ok ==> written == names)
    ensures dir.files == Overwritten(old(dir.files), written, mint)
    ensures dir.log == old(dir.log) + written
    ensures dir.obliging ==> ok
  {
    written := [];
    ok := true;
    for i := 0 to |names|
      invariant written == names[..i]
      invariant dir.files == Overwritten(old(dir.files), written, mint)
      invariant dir.log == old(dir.log) + written
    {
      ok := dir.Write(names[i], Secret(names[i], mint));
      if !ok {
        return;
      }
      written := written + [names[i]];
    }
  }

  predicate HealedOnly(m: Minter, existing: Files, healed: seq<string>, gaps: seq<string>)
  {
    forall n | n in healed :: n in gaps && Rebuildable(existing, m, n)
  }

  ghost predicate HealedInto(m: Minter, existing: Files, healed: seq<string>, before: Files, after: Files)
  {
    forall n ::
      if n in healed then
        Rebuildable(existing, m, n) && Has(after, n) && after[n].value == Secret(n, existing[m.derivable[n]].value.mint)
      else SameAt(before, after, n)
  }

  /** Rebuilds the gaps that can be, from what was there when the call began. */
  method Heal(dir: KeyringDir, m: Minter, gaps: seq<string>, existing: Files) returns (ok: bool, healed: seq<string>)
    modifies dir
    ensures HealedOnly(m, existing, healed, gaps)
    ensures HealedInto(m, existing, healed, old(dir.files), dir.files)
    ensures ok ==> forall n | n in gaps && Rebuildable(existing, m, n) :: n in healed
    ensures dir.log == old(dir.log) + healed
    ensures dir.obliging ==> ok
  {
    healed := [];
    ok := true;
    for i := 0 to |gaps|
      invariant HealedOnly(m, existing, healed, gaps)
      invariant HealedInto(m, existing, healed, old(dir.files), dir.files)
      invariant forall n | n in gaps[..i] && Rebuildable(existing, m, n) :: n in healed
      invariant dir.log == old(dir.log) + healed
    {
      var name := gaps[i];
      assert gaps[..i + 1] == gaps[..i] + [name];
      if !Rebuildable(existing, m, name) {
        continue;
      }
      ok := dir.Write(name, Secret(name, existing[m.derivable[name]].value.mint));
      if !ok {
        return;
      }
      healed := healed + [name];
    }
    assert gaps[..|gaps|] == gaps;
  }

  function Gaps(fs: Files, names: seq<string>): (r: seq<string>)
    ensures forall n :: n in r <==> n in names && !Has(fs, n)
  {
    if names == [] then [] else
      assert names == [names[0]] + names[1..];
      (if Has(fs, names[0]) then [] else [names[0]]) + Gaps(fs, names[1..])
  }

  datatype Ending =
    | Cut
    | Refused(partial: seq<string>)
    | Complete(minted: bool)

  /** How far the loop has got: the protocols before the i-th are gone through, the rest untouched. */
  ghost predicate GoneThrough(ms: seq<Minter>, i: nat, before: Files, now: Files, mint: nat)
    requires i <= |ms|
  {
    && (forall m | m in ms[..i] :: DoneAt(m, before, now, mint))
    && (forall n | n !in AllNames(ms[..i]) :: SameAt(before, now, n))
  }

  lemma {:induction false} AllNamesPlus(ms: seq<Minter>, i: nat)
    requires i < |ms|
    ensures AllNames(ms[..i + 1]) == AllNames(ms[..i]) + ms[i].produced
    decreases i
  {
    if i == 0 {
      assert ms[..1][1..] == [] && ms[..0] == [];
    } else {
      AllNamesPlus(ms[1..], i - 1);
      assert ms[..i + 1][1..] == ms[1..][..i] && ms[..i][1..] == ms[1..][..i - 1];
    }
  }

  lemma Untouched(ms: seq<Minter>, i: nat, before: Files, now: Files, mint: nat)
    requires Separate(ms) && i < |ms| && GoneThrough(ms, i, before, now, mint)
    ensures forall n | n in ms[i].produced :: n !in AllNames(ms[..i]) && SameAt(before, now, n)
  {
    forall n | n in ms[i].produced ensures n !in AllNames(ms[..i]) {
      AllNamesIn(ms[..i], n);
    }
  }

  /** One more protocol gone through. */
  lemma OneMore(ms: seq<Minter>, i: nat, before: Files, was: Files, now: Files, mint: nat)
    requires Separate(ms) && i < |ms| && GoneThrough(ms, i, before, was, mint)
    requires forall n | n !in ms[i].produced :: SameAt(was, now, n)
    requires DoneAt(ms[i], before, now, mint)
    ensures GoneThrough(ms, i + 1, before, now, mint)
  {
    hide DoneAt, SameAt;
    AllNamesPlus(ms, i);
    forall m | m in ms[..i + 1] ensures DoneAt(m, before, now, mint) {
      if m != ms[i] {
        var j :| 0 <= j < i && ms[j] == m;
        assert DoneAt(ms[..i][j], before, was, mint);
        forall n | n in m.produced ensures SameAt(was, now, n) {
          assert n !in ms[i].produced;
        }
        DoneElsewhere(m, before, was, now, mint);
      }
    }
    forall n | n !in AllNames(ms[..i + 1]) ensures SameAt(before, now, n) {
      SameTwice(before, was, now, n);
    }
  }

  lemma SameTwice(a: Files, b: Files, c: Files, n: string)
    requires SameAt(a, b, n) && SameAt(b, c, n)
    ensures SameAt(a, c, n)
  {
  }

  lemma DoneElsewhere(m: Minter, before: Files, was: Files, now: Files, mint: nat)
    requires DoneAt(m, before, was, mint) && forall n | n in m.produced :: SameAt(was, now, n)
    ensures DoneAt(m, before, now, mint)
  {
  }

  /** Cut off within the i-th protocol, the call has still done only what a gentle call may do. */
  lemma CutIsGentle(ms: seq<Minter>, i: nat, before: Files, was: Files, now: Files, mint: nat)
    requires Separate(ms) && i < |ms| && GoneThrough(ms, i, before, was, mint)
    requires forall n | n !in ms[i].produced :: SameAt(was, now, n)
    requires GentleAt(ms[i], before, now, mint)
    ensures Gentle(ms, before, now, mint)
  {
    hide SameAt, DoneAt, GentleAt;
    forall n | n !in AllNames(ms) ensures SameAt(before, now, n) {
      AllNamesIn(ms, n);
      AllNamesIn(ms[..i], n);
      SameTwice(before, was, now, n);
    }
    forall m | m in ms ensures GentleAt(m, before, now, mint) {
      var j :| 0 <= j < |ms| && ms[j] == m;
      if j < i {
        assert ms[..i][j] == m;
        forall n | n in m.produced ensures SameAt(was, now, n) {
          assert n !in ms[i].produced;
        }
        DoneElsewhere(m, before, was, now, mint);
        DoneIsGentle(m, before, now, mint);
      } else if j > i {
        forall n | n in m.produced ensures SameAt(before, now, n) {
          assert n !in ms[i].produced;
          AllNamesIn(ms[..i], n);
          SameTwice(before, was, now, n);
        }
        NothingIsGentle(m, before, now, mint);
      }
    }
  }

  lemma DoneIsGentle(m: Minter, before: Files, now: Files, mint: nat)
    requires DoneAt(m, before, now, mint)
    ensures GentleAt(m, before, now, mint)
  {
  }

  lemma NothingIsGentle(m: Minter, before: Files, now: Files, mint: nat)
    requires forall n | n in m.produced :: SameAt(before, now, n)
    ensures GentleAt(m, before, now, mint)
  {
  }

  /** What a rebuilding of the gaps amounts to, cut off or not. */
  lemma HealingIs(m: Minter, before: Files, was: Files, now: Files, gaps: seq<string>, healed: seq<string>, mint: nat)
    requires Survives(before, m) && forall n | n in m.produced :: SameAt(before, was, n)
    requires forall n :: n in gaps <==> n in m.produced && !Has(before, n)
    requires HealedOnly(m, before, healed, gaps) && HealedInto(m, before, healed, was, now)
    ensures GentleAt(m, before, now, mint)
    ensures (forall n | n in gaps && Rebuildable(before, m, n) :: n in healed) ==> DoneAt(m, before, now, mint)
    ensures forall n | n !in m.produced :: SameAt(was, now, n)
  {
    forall n | n in m.produced ensures if n in healed then Rebuilt(m, before, now, n) else SameAt(before, now, n) {
    }
  }

  lemma MintingIs(m: Minter, before: Files, was: Files, now: Files, written: seq<string>, mint: nat)
    requires !Survives(before, m) && forall n | n in m.produced :: SameAt(before, was, n)
    requires written <= m.produced && now == Overwritten(was, written, mint)
    ensures GentleAt(m, before, now, mint)
    ensures written == m.produced ==> DoneAt(m, before, now, mint)
    ensures forall n | n !in m.produced :: SameAt(was, now, n)
  {
  }

  lemma {:induction false} RefusalsPlus(fs: Files, ms: seq<Minter>, i: nat)
    requires i < |ms|
    ensures Refusals(fs, ms[..i + 1]) == Refusals(fs, ms[..i]) + if Damaged(fs, ms[i]) then [ms[i].protocol] else []
    decreases i
  {
    hide Damaged;
    if i == 0 {
      assert ms[..1][1..] == [] && ms[..0] == [];
    } else {
      RefusalsPlus(fs, ms[1..], i - 1);
      assert ms[..i + 1][1..] == ms[1..][..i] && ms[..i][1..] == ms[1..][..i - 1];
      RefusalsOf(fs, ms[..i + 1]);
      RefusalsOf(fs, ms[..i]);
      hide Refusals;
    }
  }

  lemma RefusalsOf(fs: Files, ms: seq<Minter>)
    requires ms != []
    ensures Refusals(fs, ms) == (if Damaged(fs, ms[0]) then [ms[0].protocol] else []) + Refusals(fs, ms[1..])
  {
    hide Damaged;
  }

  ghost predicate Fresh(fs: Files, ms: seq<Minter>)
  {
    exists m :: m in ms && m.produced != [] && !Survives(fs, m)
  }

  lemma WritesNothing(ms: seq<Minter>, i: nat, fs: Files)
    requires NothingToWrite(fs, ms) && i < |ms|
    ensures forall n | n in ms[i].produced :: !Has(fs, n) ==> !Rebuildable(fs, ms[i], n)
    ensures !Survives(fs, ms[i]) ==> ms[i].produced == []
  {
    assert ms[i].produced != [] ==> ms[i].produced[0] in ms[i].produced;
  }

  /** One protocol of the unforced loop. */
  method GentleStep(dir: KeyringDir, ms: seq<Minter>, i: nat, existing: Files, mint: nat)
    returns (ok: bool, written: seq<string>, derived: seq<string>, refused: bool)
    requires Separate(ms) && i < |ms| && GoneThrough(ms, i, existing, dir.files, mint)
    modifies dir
    ensures ok ==> GoneThrough(ms, i + 1, existing, dir.files, mint)
    ensures !ok ==> Gentle(ms, existing, dir.files, mint)
    ensures ok ==> refused == Damaged(existing, ms[i])
    ensures ok ==> (written != [] <==> ms[i].produced != [] && !Survives(existing, ms[i]))
    ensures NothingToWrite(existing, ms) ==> written == [] && derived == [] && dir.log == old(dir.log)
    ensures dir.obliging ==> ok
  {
    hide *;
    hide NothingToWrite;
    written, derived, refused := [], [], false;
    var m := ms[i];
    ghost var was := dir.files;
    Untouched(ms, i, existing, was, mint);
    var gaps := Gaps(existing, m.produced);
    if Survives(existing, m) {
      ok, derived := Heal(dir, m, gaps, existing);
      HealingIs(m, existing, was, dir.files, gaps, derived, mint);
      if NothingToWrite(existing, ms) {
        NothingHealed(ms, i, existing, gaps, derived);
      }
      refused := Unhealed(gaps, derived);
      if ok {
        RefusedIsDamaged(m, existing, gaps, derived);
      }
    } else {
      ok, written := WriteSet(dir, m.produced, mint);
      MintingIs(m, existing, was, dir.files, written, mint);
      if NothingToWrite(existing, ms) {
        WritesNothing(ms, i, existing);
      }
      UndamagedWhenAbsent(existing, m);
    }
    if ok {
      OneMore(ms, i, existing, was, dir.files, mint);
    } else {
      CutIsGentle(ms, i, existing, was, dir.files, mint);
    }
  }

  predicate Unhealed(gaps: seq<string>, healed: seq<string>)
  {
    exists n | n in gaps :: n !in healed
  }

  lemma RefusedIsDamaged(m: Minter, existing: Files, gaps: seq<string>, healed: seq<string>)
    requires Survives(existing, m) && HealedOnly(m, existing, healed, gaps)
    requires forall n :: n in gaps <==> n in m.produced && !Has(existing, n)
    requires forall n | n in gaps && Rebuildable(existing, m, n) :: n in healed
    ensures Unhealed(gaps, healed) <==> Damaged(existing, m)
  {
  }

  lemma UndamagedWhenAbsent(existing: Files, m: Minter)
    requires !Survives(existing, m)
    ensures !Damaged(existing, m)
  {
  }

  lemma NothingHealed(ms: seq<Minter>, i: nat, existing: Files, gaps: seq<string>, healed: seq<string>)
    requires NothingToWrite(existing, ms) && i < |ms|
    requires HealedOnly(ms[i], existing, healed, gaps)
    requires forall n :: n in gaps <==> n in ms[i].produced && !Has(existing, n)
    ensures healed == []
  {
    EmptySeq(healed);
  }

  /**
   Generates what is missing, a whole protocol at a time. An unforced call tops up nothing but
   what can be rebuilt, names every set it refused, and writes nothing on a settled keyring.
   */
  method BootstrapKeyring(dir: KeyringDir, ms: seq<Minter>, mint: nat, force: bool)
    returns (outcome: Ending, written: seq<string>)
    requires Separate(ms)
    modifies dir
    ensures force ==> !outcome.Refused? && written <= AllNames(ms)
    ensures force ==> dir.files == Overwritten(old(dir.files), written, mint)
    ensures force && outcome.Complete? ==> written == AllNames(ms)
    ensures !force && outcome.Cut? ==> Gentle(ms, old(dir.files), dir.files, mint)
    ensures !force && !outcome.Cut? ==> GentleDone(ms, old(dir.files), dir.files, mint)
    ensures outcome.Refused? ==> outcome.partial == Refusals(old(dir.files), ms) && outcome.partial != []
    ensures !force && outcome.Complete? ==> Refusals(old(dir.files), ms) == []
    ensures !force && outcome.Complete? ==> (outcome.minted <==> Fresh(old(dir.files), ms))
    ensures !force && NothingToWrite(old(dir.files), ms) ==> dir.log == old(dir.log)
    ensures dir.obliging ==> !outcome.Cut?
  {
    hide *;
    var existing := dir.files;
    written := [];
    var partial := [];
    NothingYet(ms, existing, mint);
    for i := 0 to |ms|
      invariant force ==> written == AllNames(ms[..i]) && dir.files == Overwritten(existing, written, mint)
      invariant force ==> partial == []
      invariant !force ==> GoneThrough(ms, i, existing, dir.files, mint)
      invariant !force ==> partial == Refusals(existing, ms[..i])
      invariant !force ==> (written != [] <==> Fresh(existing, ms[..i]))
      invariant !force && NothingToWrite(existing, ms) ==> dir.log == old(dir.log)
    {
      RefusalsPlus(existing, ms, i);
      AllNamesPlus(ms, i);
      FreshPlus(existing, ms, i);
      if force {
        var ok, some := WriteSet(dir, ms[i].produced, mint);
        OverwrittenTwice(existing, written, some, mint);
        PrefixOfAll(ms, i, some);
        written := written + some;
        if !ok {
          return Cut, written;
        }
      } else {
        var ok, some, derived, refused := GentleStep(dir, ms, i, existing, mint);
        if !ok {
          return Cut, written + some;
        }
        written := written + some;
        partial := partial + if refused then [ms[i].protocol] else [];
      }
    }
    assert ms[..|ms|] == ms;
    AllThrough(ms, existing, dir.files, mint);
    if partial != [] {
      return Refused(partial), written;
    }
    return Complete(written != []), written;
  }

  lemma NothingYet(ms: seq<Minter>, fs: Files, mint: nat)
    ensures GoneThrough(ms, 0, fs, fs, mint) && AllNames(ms[..0]) == [] && Refusals(fs, ms[..0]) == []
    ensures !Fresh(fs, ms[..0]) && Overwritten(fs, [], mint) == fs
  {
  }

  lemma FreshPlus(fs: Files, ms: seq<Minter>, i: nat)
    requires i < |ms|
    ensures Fresh(fs, ms[..i + 1]) <==> Fresh(fs, ms[..i]) || (ms[i].produced != [] && !Survives(fs, ms[i]))
  {
    hide Survives;
    assert ms[..i + 1] == ms[..i] + [ms[i]];
  }

  lemma OverwrittenTwice(fs: Files, a: seq<string>, b: seq<string>, mint: nat)
    ensures Overwritten(Overwritten(fs, a, mint), b, mint) == Overwritten(fs, a + b, mint)
  {
  }

  lemma {:induction false} AllNamesSplit(ms: seq<Minter>, i: nat)
    requires i <= |ms|
    ensures AllNames(ms) == AllNames(ms[..i]) + AllNames(ms[i..])
    decreases |ms| - i
  {
    if i == |ms| {
      assert ms[..i] == ms;
    } else {
      AllNamesSplit(ms, i + 1);
      AllNamesPlus(ms, i);
      assert ms[i..][1..] == ms[i + 1..];
    }
  }

  lemma PrefixOfAll(ms: seq<Minter>, i: nat, some: seq<string>)
    requires i < |ms| && some <= ms[i].produced
    ensures AllNames(ms[..i]) + some <= AllNames(ms)
  {
    AllNamesSplit(ms, i);
  }

  lemma AllThrough(ms: seq<Minter>, before: Files, now: Files, mint: nat)
    requires ms[..|ms|] == ms
    ensures GoneThrough(ms, |ms|, before, now, mint) ==> GentleDone(ms, before, now, mint)
  {
  }
}
