/** normalizedChoices of internal/sequencer/helpers.go: identifiers for the labels of a poll.
    choiceID is an arbitrary function here, so the results hold for any way of slugging a label. */
module Choices {
  import opened Artifacts

  function Digit(d: nat): char
    requires d < 10
  {
    '0' + d as char
  }

  // %d
  function Decimal(n: nat): (s: string)
    ensures s != "" && forall i :: 0 <= i < |s| ==> '0' <= s[i] <= '9'
  {
    if n < 10 then [Digit(n)] else Decimal(n / 10) + [Digit(n % 10)]
  }

  lemma {:induction false} DecimalInjective(m: nat, n: nat)
    requires Decimal(m) == Decimal(n)
    ensures m == n
  {
    var s, t := Decimal(m), Decimal(n);
    assert s[|s| - 1] == Digit(m % 10) && t[|t| - 1] == Digit(n % 10);
    if m >= 10 && n >= 10 {
      assert s[..|s| - 1] == Decimal(m / 10) && t[..|t| - 1] == Decimal(n / 10);
      DecimalInjective(m / 10, n / 10);
    } else {
      DecimalLength(m);
      DecimalLength(n);
    }
  }

  lemma DecimalLength(n: nat)
    ensures |Decimal(n)| == 1 <==> n < 10
  {
  }

  // Reading a decimal number.
  function ReadDecimal(s: string): int {
    if s == "" then 0 else 10 * ReadDecimal(s[..|s| - 1]) + (s[|s| - 1] as int - '0' as int)
  }

  // The decimal form reads back as the number, without a leading zero.
  lemma {:induction false} DecimalValue(n: nat)
    ensures ReadDecimal(Decimal(n)) == n && (n > 0 ==> Decimal(n)[0] != '0')
  {
    var s := Decimal(n);
    if n < 10 {
      assert s[..|s| - 1] == "";
    } else {
      DecimalValue(n / 10);
      assert s[..|s| - 1] == Decimal(n / 10) && s[0] == Decimal(n / 10)[0];
    }
  }

  function Numbered(base: string, n: nat): string {
    base + "-" + Decimal(n)
  }

  // How often the slug of the last label occurs in the list: the counter normalizedChoices keeps.
  function Occurrence(slug: string -> string, labels: seq<string>, base: string): nat {
    if labels == [] then 0
    else Occurrence(slug, labels[..|labels| - 1], base) + if slug(labels[|labels| - 1]) == base then 1 else 0
  }

  function IdOf(slug: string -> string, labels: seq<string>, index: nat): string
    requires index < |labels|
  {
    var base := slug(labels[index]);
    var n := Occurrence(slug, labels[..index + 1], base);
    if n > 1 then Numbered(base, n) else base
  }

  function Normalized(slug: string -> string, labels: seq<string>): (choices: seq<Choice>)
    ensures |choices| == |labels|
  {
    seq(|labels|, i requires 0 <= i < |labels| => Choice(IdOf(slug, labels, i), labels[i]))
  }

  // A Go map of counters: absent is zero.
  function Counted(used: map<string, nat>, base: string): nat {
    if base in used then used[base] else 0
  }

  // used counts the slugs of the first k labels.
  ghost predicate Tracks(slug: string -> string, labels: seq<string>, k: nat, used: map<string, nat>)
    requires k <= |labels|
  {
    forall base :: Counted(used, base) == Occurrence(slug, labels[..k], base)
  }

  lemma OccurrenceStep(slug: string -> string, labels: seq<string>, k: nat, base: string)
    requires k < |labels|
    ensures Occurrence(slug, labels[..k + 1], base) == Occurrence(slug, labels[..k], base) + if slug(labels[k]) == base then 1 else 0
  {
    assert labels[..k + 1][..k] == labels[..k];
  }

  lemma TracksNone(slug: string -> string, labels: seq<string>)
    ensures Tracks(slug, labels, 0, map[])
  {
  }

  // Counting one more label keeps track, and its count decides its identifier.
  lemma TracksNext(slug: string -> string, labels: seq<string>, k: nat, used: map<string, nat>)
    requires k < |labels| && Tracks(slug, labels, k, used)
    ensures var base := slug(labels[k]);
            var count := Counted(used, base) + 1;
            && Tracks(slug, labels, k + 1, used[base := count])
            && IdOf(slug, labels, k) == if count > 1 then Numbered(base, count) else base
  {
    hide Occurrence, Numbered;
    var base := slug(labels[k]);
    var after := used[base := Counted(used, base) + 1];
    forall other ensures Counted(after, other) == Occurrence(slug, labels[..k + 1], other) {
      OccurrenceStep(slug, labels, k, other);
      assert Counted(used, other) == Occurrence(slug, labels[..k], other);
    }
    OccurrenceStep(slug, labels, k, base);
  }

  method NormalizedChoices(slug: string -> string, labels: seq<string>) returns (output: seq<Choice>)
    ensures output == Normalized(slug, labels)
  {
    hide Tracks, IdOf, Numbered, Counted;
    output := [];
    var used: map<string, nat> := map[];
    var index := 0;
    TracksNone(slug, labels);
    while index < |labels|
      invariant 0 <= index <= |labels| && Tracks(slug, labels, index, used)
      invariant output == Normalized(slug, labels)[..index]
    {
      var identifier := slug(labels[index]);
      TracksNext(slug, labels, index, used);
      var count := Counted(used, identifier) + 1;
      used := used[identifier := count];
      if count > 1 {
        identifier := Numbered(identifier, count);
      }
      output := output + [Choice(identifier, labels[index])];
      index := index + 1;
    }
  }

  /* When the identifiers are distinct */

  lemma {:induction false} OccurrenceMonotone(slug: string -> string, labels: seq<string>, i: nat, j: nat, base: string)
    requires i <= j <= |labels|
    ensures Occurrence(slug, labels[..i], base) <= Occurrence(slug, labels[..j], base)
  {
    if i < j {
      OccurrenceMonotone(slug, labels, i, j - 1, base);
      assert labels[..j][..j - 1] == labels[..j - 1];
    }
  }

  // A later label with the same slug has a larger number.
  lemma OccurrenceGrows(slug: string -> string, labels: seq<string>, i: nat, j: nat)
    requires i < j < |labels| && slug(labels[i]) == slug(labels[j])
    ensures Occurrence(slug, labels[..i + 1], slug(labels[i])) < Occurrence(slug, labels[..j + 1], slug(labels[i]))
  {
    OccurrenceMonotone(slug, labels, i + 1, j, slug(labels[i]));
    assert labels[..j + 1][..j] == labels[..j];
  }

  lemma OccurrencePositive(slug: string -> string, labels: seq<string>, i: nat)
    requires i < |labels|
    ensures Occurrence(slug, labels[..i + 1], slug(labels[i])) >= 1
  {
    assert labels[..i + 1][..i] == labels[..i];
  }

  // The first label with a given slug keeps the slug as its identifier.
  lemma {:induction false} FirstWithSlug(slug: string -> string, labels: seq<string>, j: nat) returns (k: nat)
    requires j < |labels|
    ensures k <= j && slug(labels[k]) == slug(labels[j]) && IdOf(slug, labels, k) == slug(labels[j])
  {
    if exists i :: 0 <= i < j && slug(labels[i]) == slug(labels[j]) {
      var i :| 0 <= i < j && slug(labels[i]) == slug(labels[j]);
      k := FirstWithSlug(slug, labels, i);
    } else {
      k := j;
      NoneBefore(slug, labels, j);
      assert labels[..j + 1][..j] == labels[..j];
    }
  }

  lemma {:induction false} NoneBefore(slug: string -> string, labels: seq<string>, j: nat)
    requires j < |labels| && forall i :: 0 <= i < j ==> slug(labels[i]) != slug(labels[j])
    ensures Occurrence(slug, labels[..j], slug(labels[j])) == 0
  {
    NoOccurrence(slug, labels[..j], slug(labels[j]));
  }

  lemma {:induction false} NoOccurrence(slug: string -> string, labels: seq<string>, base: string)
    requires forall i :: 0 <= i < |labels| ==> slug(labels[i]) != base
    ensures Occurrence(slug, labels, base) == 0
  {
    if labels != [] { NoOccurrence(slug, labels[..|labels| - 1], base); }
  }

  lemma LastDash(base: string, n: nat)
    ensures var s := Numbered(base, n);
            s[|base|] == '-' && forall k :: |base| < k < |s| ==> s[k] != '-'
  {
  }

  // The last dash of "base-n" is the one before the number.
  lemma NumberedInjective(a: string, m: nat, b: string, n: nat)
    requires Numbered(a, m) == Numbered(b, n)
    ensures a == b && m == n
  {
    var s := Numbered(a, m);
    var t := Numbered(b, n);
    LastDash(a, m);
    LastDash(b, n);
    assert a == s[..|a|] && b == t[..|b|];
    assert Decimal(m) == s[|a| + 1..] && Decimal(n) == t[|b| + 1..];
    DecimalInjective(m, n);
  }

  /** A label whose slug is repeated is renamed; the clash is a renamed identifier that is
      another label's slug. */
  predicate Clash(slug: string -> string, labels: seq<string>) {
    exists i, j :: 0 <= i < |labels| && 0 <= j < |labels|
      && RenamedTo(slug, labels, i, slug(labels[j]))
  }

  predicate RenamedTo(slug: string -> string, labels: seq<string>, i: nat, id: string)
    requires i < |labels|
  {
    var base := slug(labels[i]);
    var n := Occurrence(slug, labels[..i + 1], base);
    n > 1 && Numbered(base, n) == id
  }

  lemma SameIdMeansClash(slug: string -> string, labels: seq<string>, i: nat, j: nat)
    requires i < j < |labels| && IdOf(slug, labels, i) == IdOf(slug, labels, j)
    ensures Clash(slug, labels)
  {
    var a, b := slug(labels[i]), slug(labels[j]);
    var m, n := Occurrence(slug, labels[..i + 1], a), Occurrence(slug, labels[..j + 1], b);
    OccurrencePositive(slug, labels, i);
    OccurrencePositive(slug, labels, j);
    if a == b { OccurrenceGrows(slug, labels, i, j); }
    if m > 1 && n > 1 {
      NumberedInjective(a, m, b, n);
    } else if m > 1 {
      assert RenamedTo(slug, labels, i, slug(labels[j]));
    } else if n > 1 {
      assert RenamedTo(slug, labels, j, slug(labels[i]));
    }
  }

  /** normalizedChoices gives distinct identifiers exactly when no repeated slug's numbered form is
      itself the slug of a label: the promise it misses, and the whole family it misses it on. */
  lemma DistinctExactly(slug: string -> string, labels: seq<string>)
    ensures DistinctChoices(Normalized(slug, labels)) <==> !Clash(slug, labels)
  {
    var choices := Normalized(slug, labels);
    if Clash(slug, labels) {
      var i, j :| 0 <= i < |labels| && 0 <= j < |labels| && RenamedTo(slug, labels, i, slug(labels[j]));
      var k := FirstWithSlug(slug, labels, j);
      assert choices[i].id == choices[k].id;
      RenamedIsLonger(slug, labels, i, k);
    } else {
      forall i, j | 0 <= i < j < |choices| ensures choices[i].id != choices[j].id {
        if choices[i].id == choices[j].id { SameIdMeansClash(slug, labels, i, j); }
      }
    }
  }

  lemma RenamedIsLonger(slug: string -> string, labels: seq<string>, i: nat, k: nat)
    requires i < |labels| && k < |labels| && RenamedTo(slug, labels, i, slug(labels[k]))
    ensures i != k
  {
  }

  // The labels "a", "a!" and "a 2" slug to "a", "a" and "a-2", and two of them collide.
  lemma CollidingLabels(slug: string -> string)
    requires slug("a") == "a" && slug("a!") == "a" && slug("a 2") == "a-2"
    ensures !DistinctChoices(Normalized(slug, ["a", "a!", "a 2"]))
  {
    var labels := ["a", "a!", "a 2"];
    assert labels[..2][..1] == labels[..1] && labels[..1][..0] == [];
    assert labels[..2] == ["a", "a!"];
    assert Occurrence(slug, labels[..1], "a") == 1;
    assert Occurrence(slug, labels[..2], "a") == 2;
    assert Decimal(2) == "2";
    assert RenamedTo(slug, labels, 1, slug(labels[2]));
    DistinctExactly(slug, labels);
  }
}
