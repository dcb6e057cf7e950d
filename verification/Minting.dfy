/** Ids as text: how the master mints them, and how both ends read them back. */
module Minting {
  import opened Lifecycle
  import opened Charset
  import opened Hostnames

  function Digits(n: nat): (s: string)
    ensures s != "" && forall k :: 0 <= k < |s| ==> '0' <= s[k] <= '9'
  {
    var last := ['0' + (n % 10) as char];
    if n < 10 then last else Digits(n / 10) + last
  }

  /** The last digit comes last. */
  lemma DigitsAre(n: nat)
    ensures n < 10 ==> Digits(n) == [DIGITS[n]]
    ensures n >= 10 ==> Digits(n) == Digits(n / 10) + [DIGITS[n % 10]]
  {
  }

  function Value(s: string): int {
    if s == "" then 0 else Value(s[..|s| - 1]) * 10 + (s[|s| - 1] as int - '0' as int)
  }

  /** Reading decimal digits back gives the number. */
  lemma {:induction false} DigitsReadBack(n: nat)
    ensures Value(Digits(n)) == n
  {
    var s := Digits(n);
    if n < 10 {
      assert s[..0] == "";
    } else {
      DigitsReadBack(n / 10);
      assert s[..|s| - 1] == Digits(n / 10);
    }
  }

  function Decimal(n: int): string {
    if n < 0 then "-" + Digits(-n) else Digits(n)
  }

  type ExperimentId = string

  /** Unique per master lifetime: the sequence number never repeats. */
  function MintId(nowMs: int, number: nat): ExperimentId {
    "exp-" + Decimal(nowMs) + "-" + Digits(number)
  }

  function InstanceIdOf(experiment: ExperimentId, host: string, action: nat): InstanceId {
    experiment + ":" + host + ":" + Digits(action)
  }

  function Position(s: string, c: char): (k: nat)
    ensures k <= |s| && Free(s[..k], c) && (k < |s| ==> s[k] == c)
  {
    if s == "" || s[0] == c then 0 else 1 + Position(s[1..], c)
  }

  /** The text before the first `:`, when there is something on both sides of it. */
  function OwningExperimentId(id: InstanceId): Option<ExperimentId> {
    var k := Position(id, ':');
    if k == |id| || k == 0 || k + 1 == |id| then None else Some(id[..k])
  }

  // ----- What the ids tell -----

  lemma MintedIdShape(nowMs: int, number: nat)
    ensures var id := MintId(nowMs, number);
            && |id| > 3 && id[..3] == "exp" && Free(id, ':')
            && forall k :: 0 <= k < |id| ==> IsAlphanumeric(id[k]) || id[k] == '-'
  {
  }

  lemma {:induction false} PositionIs(before: string, c: char, rest: string)
    requires Free(before, c)
    ensures Position(before + [c] + rest, c) == |before|
  {
    var s := before + [c] + rest;
    if before != "" {
      assert s[0] == before[0] != c;
      assert s[1..] == before[1..] + [c] + rest;
      assert forall k :: 0 <= k < |before[1..]| ==> before[1..][k] == before[k + 1];
      PositionIs(before[1..], c, rest);
    }
  }

  /** The owner of an id is `experiment` exactly when the id reads `experiment:rest`. */
  lemma OwnerIff(id: InstanceId, experiment: ExperimentId)
    ensures OwningExperimentId(id) == Some(experiment) <==>
            experiment != "" && Free(experiment, ':')
            && |experiment| + 1 < |id| && id[..|experiment|] == experiment && id[|experiment|] == ':'
  {
    if experiment != "" && Free(experiment, ':') && |experiment| + 1 < |id| && id[..|experiment|] == experiment
       && id[|experiment|] == ':'
    {
      var rest := id[|experiment| + 1..];
      assert id == experiment + [':'] + rest;
      PositionIs(experiment, ':', rest);
    }
  }

  lemma IdSplits(experiment: ExperimentId, host: string, action: nat)
    requires Free(experiment, ':') && Free(host, ':')
    ensures Split(InstanceIdOf(experiment, host, action), ':') == [experiment, host, Digits(action)]
  {
    var tail := host + ":" + Digits(action);
    assert InstanceIdOf(experiment, host, action) == experiment + ":" + tail;
    SplitFirst(experiment, tail, ':');
    SplitFirst(host, Digits(action), ':');
    SplitLabel(Digits(action), ':');
  }

  /** The id round trip: the agent accepts every minted id, the master finds its experiment again. */
  lemma MintedIdRoundTrip(nowMs: int, number: nat, host: string, action: nat)
    requires HostnameIdSafe(host)
    ensures var id := InstanceIdOf(MintId(nowMs, number), host, action);
            ValidInstanceId(id) && OwningExperimentId(id) == Some(MintId(nowMs, number))
  {
    MintedIdShape(nowMs, number);
    OwnerIff(InstanceIdOf(MintId(nowMs, number), host, action), MintId(nowMs, number));
  }

  /** Different (experiment, host, action) triples have different ids. */
  lemma IdsAreInjective(e1: ExperimentId, h1: string, a1: nat, e2: ExperimentId, h2: string, a2: nat)
    requires Free(e1, ':') && Free(e2, ':') && Free(h1, ':') && Free(h2, ':')
    ensures InstanceIdOf(e1, h1, a1) == InstanceIdOf(e2, h2, a2) <==> e1 == e2 && h1 == h2 && a1 == a2
  {
    if InstanceIdOf(e1, h1, a1) == InstanceIdOf(e2, h2, a2) {
      IdSplits(e1, h1, a1);
      IdSplits(e2, h2, a2);
      assert Split(InstanceIdOf(e1, h1, a1), ':')[2] == Split(InstanceIdOf(e2, h2, a2), ':')[2];
      DigitsReadBack(a1);
      DigitsReadBack(a2);
    }
  }

  lemma SplitPair(a: string, b: string, c: char)
    requires Free(a, c) && Free(b, c)
    ensures Split(a + [c] + b, c) == [a, b]
  {
    SplitFirst(a, b, c);
    SplitLabel(b, c);
  }

  lemma MintedIdSplits(nowMs: int, number: nat)
    ensures var parts := Split(MintId(nowMs, number), '-');
            parts == if nowMs < 0 then ["exp", "", Digits(-nowMs), Digits(number)]
                     else ["exp", Digits(nowMs), Digits(number)]
  {
    var pair := Digits(if nowMs < 0 then -nowMs else nowMs) + ['-'] + Digits(number);
    SplitPair(Digits(if nowMs < 0 then -nowMs else nowMs), Digits(number), '-');
    var tail := if nowMs < 0 then "" + ['-'] + pair else pair;
    if nowMs < 0 {
      SplitFirst("", pair, '-');
    }
    assert MintId(nowMs, number) == "exp" + ['-'] + tail;
    SplitFirst("exp", tail, '-');
  }

  /** Two experiments of one master never share an id: the id determines the sequence number. */
  lemma MintIsInjective(now1: int, n1: nat, now2: int, n2: nat)
    ensures MintId(now1, n1) == MintId(now2, n2) <==> now1 == now2 && n1 == n2
  {
    if MintId(now1, n1) == MintId(now2, n2) {
      MintedIdSplits(now1, n1);
      MintedIdSplits(now2, n2);
      var parts := Split(MintId(now1, n1), '-');
      assert parts[|parts| - 1] == Digits(n1) && parts[|parts| - 1] == Digits(n2);
      DigitsReadBack(n1);
      DigitsReadBack(n2);
      DigitsReadBack(if now1 < 0 then -now1 else now1);
      DigitsReadBack(if now2 < 0 then -now2 else now2);
      assert parts[|parts| - 2] == Digits(if now1 < 0 then -now1 else now1);
    }
  }

  /** The sequence number an experiment id ends in. */
  function NumberOf(id: ExperimentId): int {
    var parts := Split(id, '-');
    Value(parts[|parts| - 1])
  }

  lemma NumberOfMinted(nowMs: int, number: nat)
    ensures NumberOf(MintId(nowMs, number)) == number
  {
    MintedIdSplits(nowMs, number);
    DigitsReadBack(number);
  }
}
