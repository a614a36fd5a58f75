/** normalizeMembers of internal/sequencer/helpers.go: the eligibility list as a sorted list of
    distinct keys, and the hash that commits to it. */
module Members {
  import opened Wrappers
  import opened Artifacts

  datatype MemberKey = MemberKey(encoded: string, fingerprint: string)

  /* bytes.Compare */

  predicate Less(a: string, b: string) {
    b != "" && (a == "" || a[0] < b[0] || (a[0] == b[0] && Less(a[1..], b[1..])))
  }

  lemma {:induction false} LessTransitive(a: string, b: string, c: string)
    requires Less(a, b) && Less(b, c)
    ensures Less(a, c)
  {
    if a != "" && a[0] == b[0] && b[0] == c[0] {
      LessTransitive(a[1..], b[1..], c[1..]);
    }
  }

  lemma {:induction false} LessTotal(a: string, b: string)
    ensures Less(a, b) || Less(b, a) || a == b
    ensures !(Less(a, b) && Less(b, a)) && !Less(a, a)
  {
    if a != "" && b != "" {
      LessTotal(a[1..], b[1..]);
      assert a == [a[0]] + a[1..] && b == [b[0]] + b[1..];
    }
    if a != "" {
      LessTotal(a[1..], a[1..]);
    }
  }

  // The first place at which the texts differ decides, and a proper prefix comes first.
  predicate DiffersAt(a: string, b: string, k: nat) {
    && k <= |a| && k < |b| && a[..k] == b[..k] && (k == |a| || a[k] < b[k])
  }

  lemma {:induction false} LessMeans(a: string, b: string)
    ensures Less(a, b) <==> exists k: nat :: DiffersAt(a, b, k)
  {
    if a == "" || b == "" || a[0] != b[0] {
      if Less(a, b) { assert DiffersAt(a, b, 0); }
      if k: nat :| DiffersAt(a, b, k) {
        if k > 0 { assert a[..k][0] == b[..k][0]; }
      }
    } else {
      LessMeans(a[1..], b[1..]);
      if k: nat :| DiffersAt(a[1..], b[1..], k) {
        assert a[..k + 1] == [a[0]] + a[1..][..k] && b[..k + 1] == [b[0]] + b[1..][..k];
        assert DiffersAt(a, b, k + 1);
      }
      if k: nat :| DiffersAt(a, b, k) {
        if k > 0 {
          assert a[1..][..k - 1] == a[..k][1..] && b[1..][..k - 1] == b[..k][1..];
          assert DiffersAt(a[1..], b[1..], k - 1);
        }
      }
    }
  }

  predicate Sorted(keys: seq<MemberKey>) {
    forall i, j :: 0 <= i < j < |keys| ==> Less(keys[i].encoded, keys[j].encoded)
  }

  predicate DistinctFingerprints(keys: seq<MemberKey>) {
    forall i, j :: 0 <= i < j < |keys| ==> keys[i].fingerprint != keys[j].fingerprint
  }

  function Elements<T>(s: seq<T>): set<T> {
    set x | x in s
  }

  // slices.SortFunc on keys with distinct encodings.
  function Insert(key: MemberKey, sorted: seq<MemberKey>): seq<MemberKey> {
    if sorted == [] || Less(key.encoded, sorted[0].encoded) then [key] + sorted
    else [sorted[0]] + Insert(key, sorted[1..])
  }

  function Sort(keys: seq<MemberKey>): seq<MemberKey> {
    if keys == [] then [] else Insert(keys[|keys| - 1], Sort(keys[..|keys| - 1]))
  }

  predicate DistinctEncodings(keys: seq<MemberKey>) {
    forall i, j :: 0 <= i < j < |keys| ==> keys[i].encoded != keys[j].encoded
  }

  lemma {:induction false} InsertElements(key: MemberKey, sorted: seq<MemberKey>)
    ensures |Insert(key, sorted)| == |sorted| + 1
    ensures forall x :: x in Insert(key, sorted) <==> x == key || x in sorted
  {
    if sorted != [] && !Less(key.encoded, sorted[0].encoded) {
      InsertElements(key, sorted[1..]);
      assert sorted == [sorted[0]] + sorted[1..];
    }
  }

  lemma {:induction false} InsertSorted(key: MemberKey, sorted: seq<MemberKey>)
    requires Sorted(sorted) && forall k :: k in sorted ==> k.encoded != key.encoded
    ensures Sorted(Insert(key, sorted))
  {
    if sorted != [] {
      var head, tail := sorted[0], sorted[1..];
      LessTotal(key.encoded, head.encoded);
      assert head in sorted;
      if Less(key.encoded, head.encoded) {
        forall k | k in tail ensures Less(key.encoded, k.encoded) {
          LessTransitive(key.encoded, head.encoded, k.encoded);
        }
      } else {
        assert forall k :: k in tail ==> k in sorted;
        InsertSorted(key, tail);
        InsertElements(key, tail);
        var placed := Insert(key, tail);
        forall j | 0 <= j < |placed| ensures Less(head.encoded, placed[j].encoded) {
          assert placed[j] in placed;
        }
      }
    }
  }

  lemma {:induction false} SortCorrect(keys: seq<MemberKey>)
    requires DistinctEncodings(keys)
    ensures Sorted(Sort(keys)) && |Sort(keys)| == |keys|
    ensures forall x :: x in Sort(keys) <==> x in keys
  {
    if keys != [] {
      var init, last := keys[..|keys| - 1], keys[|keys| - 1];
      SortCorrect(init);
      assert forall k :: k in init ==> k.encoded != last.encoded;
      InsertSorted(last, Sort(init));
      InsertElements(last, Sort(init));
      assert keys == init + [last];
    }
  }

  lemma HeadIn(s: seq<MemberKey>)
    ensures s != [] ==> s[0] in s
  {
  }

  // The head of a sorted list comes before everything else in it.
  lemma HeadIsLeast(a: seq<MemberKey>, x: MemberKey)
    requires Sorted(a) && x in a
    ensures x == a[0] || Less(a[0].encoded, x.encoded)
  {
    var i :| 0 <= i < |a| && a[i] == x;
  }

  // A sorted list is determined by its elements.
  lemma {:induction false} SortedUnique(a: seq<MemberKey>, b: seq<MemberKey>)
    requires Sorted(a) && Sorted(b) && forall x :: x in a <==> x in b
    ensures a == b
  {
    if a != [] && b != [] {
      HeadIsLeast(a, b[0]);
      HeadIsLeast(b, a[0]);
      LessTotal(a[0].encoded, b[0].encoded);
      TailElements(a, b);
      SortedUnique(a[1..], b[1..]);
      assert a == [a[0]] + a[1..] && b == [b[0]] + b[1..];
    } else {
      HeadIn(a);
      HeadIn(b);
    }
  }

  lemma TailMember(a: seq<MemberKey>, x: MemberKey)
    requires Sorted(a) && a != []
    ensures x in a[1..] <==> x in a && x != a[0]
  {
    LessTotal(a[0].encoded, a[0].encoded);
    assert a == [a[0]] + a[1..];
  }

  lemma TailElements(a: seq<MemberKey>, b: seq<MemberKey>)
    requires Sorted(a) && Sorted(b) && a != [] && b != [] && a[0] == b[0]
    requires forall x :: x in a <==> x in b
    ensures forall x :: x in a[1..] <==> x in b[1..]
  {
    forall x ensures x in a[1..] <==> x in b[1..] {
      TailMember(a, x);
      TailMember(b, x);
    }
  }

  /* normalizeMembers */

  function KeyOf(w: World, text: string): (k: MemberKey)
    requires w.ssh.parse(text).Some?
  {
    var key := w.ssh.parse(text).value;
    MemberKey(w.ssh.canonical(key), w.ssh.fingerprint(key))
  }

  predicate FingerprintIn(keys: seq<MemberKey>, fingerprint: string) {
    exists i :: 0 <= i < |keys| && keys[i].fingerprint == fingerprint
  }

  // The keys in the order given, or the first problem met.
  function Collect(w: World, encoded: seq<string>): Result<seq<MemberKey>> {
    if encoded == [] then Ok([]) else
    var before :- Collect(w, encoded[..|encoded| - 1]);
    var text := encoded[|encoded| - 1];
    if w.ssh.parse(text).None? then Err("invalid_member_key")
    else if FingerprintIn(before, KeyOf(w, text).fingerprint) then Err("duplicate_eligible_key")
    else Ok(before + [KeyOf(w, text)])
  }

  function Encodings(keys: seq<MemberKey>): (texts: seq<string>)
    ensures |texts| == |keys|
  {
    seq(|keys|, i requires 0 <= i < |keys| => keys[i].encoded)
  }

  const ELIGIBILITY := "vota:eligibility:v1"

  function Commitment(w: World, keys: seq<MemberKey>): string {
    HashBytes(w, ELIGIBILITY, w.keys.text(Encodings(keys)))
  }

  function Normalized(w: World, encoded: seq<string>): Result<(seq<MemberKey>, string)> {
    if |encoded| < 2 || |encoded| > 1000 then Err("invalid_members") else
    var keys :- Collect(w, encoded);
    Ok((Sort(keys), Commitment(w, Sort(keys))))
  }

  // One more text: the problem it has, or the keys with it.
  lemma CollectStep(w: World, encoded: seq<string>, k: nat)
    requires k < |encoded| && Collect(w, encoded[..k]).Ok?
    ensures var before := Collect(w, encoded[..k]).value;
            Collect(w, encoded[..k + 1]) ==
            if w.ssh.parse(encoded[k]).None? then Err("invalid_member_key")
            else if FingerprintIn(before, KeyOf(w, encoded[k]).fingerprint) then Err("duplicate_eligible_key")
            else Ok(before + [KeyOf(w, encoded[k])])
  {
    hide FingerprintIn, KeyOf;
    assert encoded[..k + 1][..k] == encoded[..k];
  }

  lemma CollectNone(w: World, encoded: seq<string>)
    ensures Collect(w, encoded[..0]) == Ok([]) && forall f :: !FingerprintIn([], f)
  {
  }

  method NormalizeMembers(w: World, encoded: seq<string>) returns (result: Result<(seq<MemberKey>, string)>)
    ensures result == Normalized(w, encoded)
  {
    hide Collect, FingerprintIn, KeyOf, Sort, Commitment;
    if |encoded| < 2 || |encoded| > 1000 {
      return Err("invalid_members");
    }
    var output: seq<MemberKey> := [];
    var seen: set<string> := {};
    var index := 0;
    CollectNone(w, encoded);
    while index < |encoded|
      invariant 0 <= index <= |encoded|
      invariant Collect(w, encoded[..index]) == Ok(output)
      invariant forall f :: f in seen <==> FingerprintIn(output, f)
    {
      var value := encoded[index];
      CollectStep(w, encoded, index);
      if w.ssh.parse(value).None? {
        CollectFails(w, encoded, index + 1);
        return Err("invalid_member_key");
      }
      var member := KeyOf(w, value);
      if member.fingerprint in seen {
        CollectFails(w, encoded, index + 1);
        return Err("duplicate_eligible_key");
      }
      seen := seen + {member.fingerprint};
      SeenGrows(output, member);
      output := output + [member];
      index := index + 1;
    }
    assert encoded[..index] == encoded;
    output := Sort(output);
    return Ok((output, Commitment(w, output)));
  }

  lemma SeenGrows(keys: seq<MemberKey>, member: MemberKey)
    ensures forall f :: FingerprintIn(keys + [member], f) <==> FingerprintIn(keys, f) || f == member.fingerprint
  {
    forall f ensures FingerprintIn(keys + [member], f) <==> FingerprintIn(keys, f) || f == member.fingerprint {
      var grown := keys + [member];
      assert grown[|keys|] == member;
      if FingerprintIn(keys, f) {
        var i :| 0 <= i < |keys| && keys[i].fingerprint == f;
        assert grown[i].fingerprint == f;
      }
    }
  }

  lemma {:induction false} CollectFails(w: World, encoded: seq<string>, k: nat)
    requires k <= |encoded| && Collect(w, encoded[..k]).Err?
    ensures Collect(w, encoded) == Err(Collect(w, encoded[..k]).code)
    decreases |encoded|
  {
    if k == |encoded| {
      assert encoded[..k] == encoded;
    } else {
      var init := encoded[..|encoded| - 1];
      assert init[..k] == encoded[..k];
      CollectFails(w, init, k);
    }
  }

  // What acceptance means, and that what is collected is the keys themselves.
  lemma {:induction false} CollectOk(w: World, encoded: seq<string>)
    requires Collect(w, encoded).Ok?
    ensures var keys := Collect(w, encoded).value;
            && |keys| == |encoded| && DistinctFingerprints(keys)
            && (forall i :: 0 <= i < |encoded| ==> w.ssh.parse(encoded[i]).Some? && keys[i] == KeyOf(w, encoded[i]))
  {
    if encoded != [] {
      CollectOk(w, encoded[..|encoded| - 1]);
    }
  }

  lemma {:induction false} CollectAccepts(w: World, encoded: seq<string>)
    requires forall i :: 0 <= i < |encoded| ==> w.ssh.parse(encoded[i]).Some?
    requires forall i, j :: 0 <= i < j < |encoded| ==> KeyOf(w, encoded[i]).fingerprint != KeyOf(w, encoded[j]).fingerprint
    ensures Collect(w, encoded).Ok?
  {
    if encoded != [] {
      var init := encoded[..|encoded| - 1];
      CollectAccepts(w, init);
      CollectOk(w, init);
    }
  }

  // Keys with different fingerprints have different canonical texts.
  lemma FingerprintsSeparate(w: World, encoded: seq<string>)
    requires w.ssh.RoundTrips() && Collect(w, encoded).Ok?
    ensures DistinctEncodings(Collect(w, encoded).value)
  {
    CollectOk(w, encoded);
    var keys := Collect(w, encoded).value;
    forall i, j | 0 <= i < j < |keys| ensures keys[i].encoded != keys[j].encoded {
      var a, b := w.ssh.parse(encoded[i]).value, w.ssh.parse(encoded[j]).value;
      assert w.ssh.parse(w.ssh.canonical(a)) == Some(a);
      assert w.ssh.parse(w.ssh.canonical(b)) == Some(b);
    }
  }

  // Everything the rest of the model uses about an accepted list.
  lemma NormalizedFacts(w: World, encoded: seq<string>)
    requires w.ssh.RoundTrips() && Normalized(w, encoded).Ok?
    ensures var (keys, commitment) := Normalized(w, encoded).value;
            && commitment == Commitment(w, keys)
            && Sorted(keys) && DistinctFingerprints(keys) && 2 <= |keys| <= 1000
            && Canonical(w, keys)
            && (forall k :: k in keys <==> exists i :: 0 <= i < |encoded| && w.ssh.parse(encoded[i]).Some? && KeyOf(w, encoded[i]) == k)
  {
    var collected := Collect(w, encoded).value;
    CollectOk(w, encoded);
    FingerprintsSeparate(w, encoded);
    SortCorrect(collected);
    var keys := Sort(collected);
    SortKeepsFingerprints(collected, keys);
    CollectedCanonical(w, encoded);
    forall k ensures k in keys <==> exists i :: 0 <= i < |encoded| && w.ssh.parse(encoded[i]).Some? && KeyOf(w, encoded[i]) == k {
      if k in keys {
        assert k in collected;
        var i :| 0 <= i < |collected| && collected[i] == k;
        assert KeyOf(w, encoded[i]) == k;
      }
      if i :| 0 <= i < |encoded| && w.ssh.parse(encoded[i]).Some? && KeyOf(w, encoded[i]) == k {
        assert collected[i] == k;
      }
    }
  }

  // Every key is its own canonical form.
  predicate Canonical(w: World, keys: seq<MemberKey>) {
    forall k :: k in keys ==> w.ssh.parse(k.encoded).Some? && KeyOf(w, k.encoded) == k
  }

  lemma CollectedCanonical(w: World, encoded: seq<string>)
    requires w.ssh.RoundTrips() && Collect(w, encoded).Ok?
    ensures Canonical(w, Collect(w, encoded).value)
  {
  }

  lemma SortKeepsFingerprints(keys: seq<MemberKey>, sorted: seq<MemberKey>)
    requires DistinctFingerprints(keys) && Sorted(sorted) && forall x :: x in sorted <==> x in keys
    ensures DistinctFingerprints(sorted)
  {
    forall i, j | 0 <= i < j < |sorted| ensures sorted[i].fingerprint != sorted[j].fingerprint {
      assert sorted[i] in keys && sorted[j] in keys;
      LessTotal(sorted[i].encoded, sorted[j].encoded);
    }
  }

  predicate SameKeys(w: World, a: seq<string>, b: seq<string>) {
    && (forall i :: 0 <= i < |a| ==> w.ssh.parse(a[i]).Some?)
    && (forall i :: 0 <= i < |b| ==> w.ssh.parse(b[i]).Some?)
    && (set i | 0 <= i < |a| :: KeyOf(w, a[i])) == (set i | 0 <= i < |b| :: KeyOf(w, b[i]))
  }

  // The result depends on the set of keys only.
  lemma OnlyTheSetMatters(w: World, a: seq<string>, b: seq<string>)
    requires w.ssh.RoundTrips() && Normalized(w, a).Ok? && Normalized(w, b).Ok?
    ensures SameKeys(w, a, b) <==> Normalized(w, a).value.0 == Normalized(w, b).value.0
    ensures SameKeys(w, a, b) ==> Normalized(w, a) == Normalized(w, b)
  {
    NormalizedFacts(w, a);
    NormalizedFacts(w, b);
    CollectOk(w, a);
    CollectOk(w, b);
    var x, y := Normalized(w, a).value.0, Normalized(w, b).value.0;
    var sa, sb := set i | 0 <= i < |a| :: KeyOf(w, a[i]), set i | 0 <= i < |b| :: KeyOf(w, b[i]);
    assert forall k :: k in x <==> k in sa;
    assert forall k :: k in y <==> k in sb;
    if sa == sb {
      SortedUnique(x, y);
    }
    if x == y {
      assert sa == sb;
    }
  }

  // Accepting a list does not depend on its order.
  lemma ReorderingAccepted(w: World, a: seq<string>, b: seq<string>)
    requires w.ssh.RoundTrips() && Normalized(w, a).Ok? && multiset(a) == multiset(b)
    ensures Normalized(w, b) == Normalized(w, a)
  {
    CollectOk(w, a);
    assert |a| == |multiset(a)| == |b|;
    SameElements(a, b);
    assert forall i :: 0 <= i < |b| ==> b[i] in a;
    assert forall i :: 0 <= i < |a| ==> a[i] in b;
    forall i, j | 0 <= i < j < |b| ensures KeyOf(w, b[i]).fingerprint != KeyOf(w, b[j]).fingerprint {
      TwoPlaces(a, b, i, j);
      var m, n :| 0 <= m < |a| && 0 <= n < |a| && m != n && a[m] == b[i] && a[n] == b[j];
    }
    CollectAccepts(w, b);
    ReorderingSameKeys(w, a, b);
    OnlyTheSetMatters(w, a, b);
  }

  lemma ReorderingSameKeys(w: World, a: seq<string>, b: seq<string>)
    requires forall x :: x in a <==> x in b
    requires forall i :: 0 <= i < |a| ==> w.ssh.parse(a[i]).Some?
    requires forall i :: 0 <= i < |b| ==> w.ssh.parse(b[i]).Some?
    ensures SameKeys(w, a, b)
  {
    var sa, sb := set i | 0 <= i < |a| :: KeyOf(w, a[i]), set i | 0 <= i < |b| :: KeyOf(w, b[i]);
    forall k | k in sa ensures k in sb {
      var i :| 0 <= i < |a| && KeyOf(w, a[i]) == k;
      assert a[i] in b;
      var j :| 0 <= j < |b| && b[j] == a[i];
    }
    forall k | k in sb ensures k in sa {
      var i :| 0 <= i < |b| && KeyOf(w, b[i]) == k;
      assert b[i] in a;
      var j :| 0 <= j < |a| && a[j] == b[i];
    }
  }

  lemma SameElements(a: seq<string>, b: seq<string>)
    requires multiset(a) == multiset(b)
    ensures forall x :: x in a <==> x in b
  {
    forall x ensures x in a <==> x in b {
      assert x in a <==> x in multiset(a);
      assert x in b <==> x in multiset(b);
    }
  }

  // Two positions of a reordering come from two positions of the original.
  lemma TwoPlaces(a: seq<string>, b: seq<string>, i: nat, j: nat)
    requires multiset(a) == multiset(b) && i < j < |b|
    ensures exists m, n :: 0 <= m < |a| && 0 <= n < |a| && m != n && a[m] == b[i] && a[n] == b[j]
  {
    assert b[i] in multiset(a) && b[j] in multiset(a);
    var m :| 0 <= m < |a| && a[m] == b[i];
    if b[i] != b[j] {
      var n :| 0 <= n < |a| && a[n] == b[j];
    } else {
      assert multiset(b) == multiset(b[..j]) + multiset(b[j..]) by { assert b == b[..j] + b[j..]; }
      assert b[..j][i] == b[i] && b[j..][0] == b[j];
      assert multiset(b)[b[i]] >= 2;
      var rest := a[..m] + a[m + 1..];
      assert a == a[..m] + [a[m]] + a[m + 1..];
      assert multiset(a) == multiset(rest) + multiset{a[m]};
      assert b[i] in rest;
      var n :| 0 <= n < |rest| && rest[n] == b[i];
      assert a[if n < m then n else n + 1] == b[j];
    }
  }

  // Normalising the normalised list gives it back.
  lemma NormalizedIdempotent(w: World, encoded: seq<string>)
    requires w.ssh.RoundTrips() && Normalized(w, encoded).Ok?
    ensures Normalized(w, Encodings(Normalized(w, encoded).value.0)) == Normalized(w, encoded)
  {
    NormalizedFacts(w, encoded);
    var keys := Normalized(w, encoded).value.0;
    var texts := Encodings(keys);
    forall i | 0 <= i < |texts| ensures w.ssh.parse(texts[i]).Some? && KeyOf(w, texts[i]) == keys[i] {
      assert keys[i] in keys;
    }
    CollectAccepts(w, texts);
    CollectOk(w, texts);
    assert Collect(w, texts).value == keys;
    assert DistinctEncodings(keys) by {
      forall i, j | 0 <= i < j < |keys| ensures keys[i].encoded != keys[j].encoded {
        LessTotal(keys[i].encoded, keys[j].encoded);
      }
    }
    SortCorrect(keys);
    SortedUnique(Sort(keys), keys);
  }

  lemma EncodingsDetermine(w: World, x: seq<MemberKey>, y: seq<MemberKey>)
    requires Canonical(w, x) && Canonical(w, y)
    ensures Encodings(x) == Encodings(y) ==> x == y
  {
    if Encodings(x) == Encodings(y) {
      forall i | 0 <= i < |x| ensures x[i] == y[i] {
        assert x[i].encoded == Encodings(x)[i] == Encodings(y)[i] == y[i].encoded;
        assert x[i] in x && y[i] in y;
      }
    }
  }

  // Two different key lists share a commitment only through a collision of the hash on their encodings.
  lemma CommitmentBinds(w: World, a: seq<string>, b: seq<string>)
    requires w.ssh.RoundTrips() && Faithful(w.keys)
    requires Normalized(w, a).Ok? && Normalized(w, b).Ok? && !SameKeys(w, a, b)
    ensures var (x, p) := Normalized(w, a).value;
            var (y, q) := Normalized(w, b).value;
            p != q || Collide(w, ELIGIBILITY + "\0" + w.keys.text(Encodings(x)), ELIGIBILITY + "\0" + w.keys.text(Encodings(y)))
  {
    OnlyTheSetMatters(w, a, b);
    NormalizedFacts(w, a);
    NormalizedFacts(w, b);
    var x, y := Normalized(w, a).value.0, Normalized(w, b).value.0;
    EncodingsDetermine(w, x, y);
    assert w.keys.read(w.keys.text(Encodings(x))) == Some(Encodings(x));
    assert w.keys.read(w.keys.text(Encodings(y))) == Some(Encodings(y));
    var head := ELIGIBILITY + "\0";
    PrefixCancels(head, w.keys.text(Encodings(x)), w.keys.text(Encodings(y)));
  }
}
