/** Which scanner an upload may speak for. A header carries a token; what is compared is its digest. */
module Authorization {
  import opened Wrappers
  import opened DeviceTable
  import opened Sets

  // ----- Comparing without an early return -----

  /** Bits in which the two differ, gathered over their whole length. */
  function Differing(a: Digest, b: Digest, acc: bv8): bv8
    requires |a| == |b|
  {
    if a == [] then acc else Differing(a[1..], b[1..], acc | (a[0] ^ b[0]))
  }

  predicate ConstantTimeEq(a: Digest, b: Digest) {
    |a| == |b| && Differing(a, b, 0) == 0
  }

  lemma {:induction false} DifferingBits(a: Digest, b: Digest, acc: bv8)
    requires |a| == |b|
    ensures Differing(a, b, acc) == 0 <==> acc == 0 && a == b
    decreases |a|
  {
    if a != [] {
      DifferingBits(a[1..], b[1..], acc | (a[0] ^ b[0]));
      NoBitsDiffer(acc, a[0], b[0]);
      assert a == [a[0]] + a[1..] && b == [b[0]] + b[1..];
    }
  }

  lemma {:induction false} NoBitsDiffer(acc: bv8, x: bv8, y: bv8)
    ensures acc | (x ^ y) == 0 <==> acc == 0 && x == y
  {
    assert (x ^ y) == 0 <==> x == y;
  }

  /** It looks at every byte, and answers what `==` would. */
  lemma {:induction false} ComparesAll(a: Digest, b: Digest)
    ensures ConstantTimeEq(a, b) <==> a == b
  {
    if |a| == |b| {
      DifferingBits(a, b, 0);
    }
  }

  // ----- Looking the phone up -----

  function Claimants(paired: map<Scanner, Device>, deviceId: string, digest: Digest): set<Scanner> {
    set s | s in paired && paired[s].deviceId == deviceId && ConstantTimeEq(paired[s].digest, digest)
  }

  /** `None` is refused as unauthorized. */
  function Authorize(
    paired: map<Scanner, Device>, deviceId: string, digest: Digest, overTls: bool, requireTls: bool): Option<Scanner>
  {
    var claimants := Claimants(paired, deviceId, digest);
    if claimants == {} then None
    else
      var scanner := Least(claimants);
      if !overTls && (paired[scanner].tls || requireTls) then None else Some(scanner)
  }

  /**
   An upload is let through for the first scanner paired under its name and token, and not in the clear if
   that pairing, or the host, wants TLS.
   */
  lemma {:induction false} AuthorizedExactly(
    paired: map<Scanner, Device>, deviceId: string, digest: Digest, overTls: bool, requireTls: bool, s: Scanner)
    ensures Authorize(paired, deviceId, digest, overTls, requireTls) == Some(s) <==>
              && s in paired && paired[s].deviceId == deviceId && paired[s].digest == digest
              && (forall t | t in paired && t < s :: paired[t].deviceId != deviceId || paired[t].digest != digest)
              && (overTls || (!paired[s].tls && !requireTls))
  {
    hide ConstantTimeEq;
    var claimants := Claimants(paired, deviceId, digest);
    forall t
      ensures t in claimants <==> t in paired && paired[t].deviceId == deviceId && paired[t].digest == digest
    {
      if t in paired {
        ComparesAll(paired[t].digest, digest);
      }
    }
    if claimants != {} {
      var least := Least(claimants);
      if s in claimants && s != least {
        assert least < s && least in paired;
      }
    }
  }

  /** A revoked phone, its name and token paired with no other scanner, is refused over either transport. */
  lemma {:induction false} ARevokedPhoneIsRefused(st: State, s: Scanner, f: Faults, overTls: bool, requireTls: bool)
    requires s in st.paired
    requires forall t | t in st.paired && t != s ::
               st.paired[t].deviceId != st.paired[s].deviceId || st.paired[t].digest != st.paired[s].digest
    ensures var d := st.paired[s];
            Authorize(Step(st, Forget(s, f)).0.paired, d.deviceId, d.digest, overTls, requireTls) == None
  {
    var after := Step(st, Forget(s, f)).0.paired;
    var r := Authorize(after, st.paired[s].deviceId, st.paired[s].digest, overTls, requireTls);
    if r.Some? {
      AuthorizedExactly(after, st.paired[s].deviceId, st.paired[s].digest, overTls, requireTls, r.value);
    }
  }

  /** Pairings older than TLS still upload in the clear after the upgrade, unless the host requires TLS. */
  lemma {:induction false} OldPairingsStillUpload(
    file: File, drawn: string, bound: nat, f: Faults, s: Scanner, requireTls: bool)
    requires file.Saved? && file.version < DEVICE_STORE_VERSION && !f.readFails && s in file.records
    requires forall t | t in file.records :: file.records[t].tls == None
    ensures var r := file.records[s];
            Authorize(Started(file, drawn, bound, f).paired, r.deviceId, r.digest, false, requireTls).Some?
            <==> !requireTls
  {
    var paired, r := Started(file, drawn, bound, f).paired, file.records[s];
    AnOldFileKeepsItsPairings(file, drawn, bound, f);
    ComparesAll(r.digest, r.digest);
    assert s in Claimants(paired, r.deviceId, r.digest);
  }
}
