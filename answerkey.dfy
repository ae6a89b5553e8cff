/**
  The fixed answer key of the listening test: ten blocks per centre
  frequency (200, 1000 and 5000 Hz), each with the 4-letter pattern of which
  tone of each pair is the higher one (`F` first, `S` second) and the
  comparison tone's frequency. A block's score column is labelled
  "{delta} ({centre}Hz)" where delta = |target - centre|.
*/
module AnswerKey {
  import opened Strings

  /** One answer-key entry: pattern, comparison ("target") frequency, centre frequency. */
  datatype KeyEntry = KeyEntry(pattern: string, target: nat, center: nat)

  // The three hand-written tables, (pattern, frequency), in the order the
  // blocks appear in the survey export.
  const PartA: seq<(string, nat)> :=
    [("FFSS", 192), ("FSFF", 190), ("FSSF", 198), ("FFFF", 191), ("SFSS", 199),
     ("SSFF", 195), ("FFSS", 193), ("FSFS", 194), ("FFSF", 197), ("FSFF", 196)]
  const PartB: seq<(string, nat)> :=
    [("SFSF", 995), ("SFSF", 999), ("SFFF", 993), ("FSFF", 996), ("SFFS", 994),
     ("FFSS", 992), ("FSFS", 990), ("FSFS", 997), ("FSSF", 998), ("FSSS", 991)]
  const PartC: seq<(string, nat)> :=
    [("SSFS", 4940), ("FSFF", 4964), ("FFFF", 4976), ("FFFS", 4952), ("FFFS", 4970),
     ("SFFS", 4946), ("SFSS", 4982), ("SFFF", 4988), ("SSSF", 4958), ("FFFS", 4994)]

  /** The entries of one table, tagged with their centre frequency. */
  function WithCenter(part: seq<(string, nat)>, c: nat): (r: seq<KeyEntry>)
    ensures |r| == |part|
    ensures forall i :: 0 <= i < |part| ==> r[i] == KeyEntry(part[i].0, part[i].1, c)
  {
    seq(|part|, i requires 0 <= i < |part| => KeyEntry(part[i].0, part[i].1, c))
  }

  /** `all_keys`: the 200 Hz table, then the 1000 Hz table, then the 5000 Hz table. */
  function CombinedKeys(): seq<KeyEntry>
  {
    WithCenter(PartA, 200) + WithCenter(PartB, 1000) + WithCenter(PartC, 5000)
  }

  /**
    Builds `all_keys` by appending the three tables in turn, each entry
    tagged with its centre.
  */
  method BuildKeys() returns (keys: seq<KeyEntry>)
    ensures keys == CombinedKeys()
    ensures |keys| == 30
    ensures forall i :: 0 <= i < 10 ==> keys[i] == KeyEntry(PartA[i].0, PartA[i].1, 200)
    ensures forall i :: 10 <= i < 20 ==> keys[i] == KeyEntry(PartB[i - 10].0, PartB[i - 10].1, 1000)
    ensures forall i :: 20 <= i < 30 ==> keys[i] == KeyEntry(PartC[i - 20].0, PartC[i - 20].1, 5000)
  {
    keys := [];
    for i := 0 to |PartA|
      invariant keys == WithCenter(PartA[..i], 200)
    {
      keys := keys + [KeyEntry(PartA[i].0, PartA[i].1, 200)];
    }
    assert PartA[..|PartA|] == PartA;
    for i := 0 to |PartB|
      invariant keys == WithCenter(PartA, 200) + WithCenter(PartB[..i], 1000)
    {
      keys := keys + [KeyEntry(PartB[i].0, PartB[i].1, 1000)];
    }
    assert PartB[..|PartB|] == PartB;
    for i := 0 to |PartC|
      invariant keys == WithCenter(PartA, 200) + WithCenter(PartB, 1000) + WithCenter(PartC[..i], 5000)
    {
      keys := keys + [KeyEntry(PartC[i].0, PartC[i].1, 5000)];
    }
    assert PartC[..|PartC|] == PartC;
  }

  /** `abs(f - c)`. */
  function Delta(e: KeyEntry): (d: nat)
    ensures e.target <= e.center ==> d == e.center - e.target
    ensures e.center <= e.target ==> d == e.target - e.center
  {
    if e.target <= e.center then e.center - e.target else e.target - e.center
  }

  /** `f"{delta} ({center_freq}Hz)"`. */
  function Label(delta: nat, center: nat): string
  {
    NatToString(delta) + " (" + NatToString(center) + "Hz)"
  }

  /** The score column of a key entry. */
  function KeyLabel(e: KeyEntry): string
  {
    Label(Delta(e), e.center)
  }

  /** The `(...Hz)` tag of a centre frequency, as searched for by the column grouping. */
  function CenterTag(center: nat): string
  {
    "(" + NatToString(center) + "Hz)"
  }

  /** A label starts with its delta's digits, followed by a space. */
  lemma LabelLeadingDigits(delta: nat, center: nat)
    ensures LeadingDigits(Label(delta, center)) == NatToString(delta)
  {
    var rest := " (" + NatToString(center) + "Hz)";
    assert Label(delta, center) == NatToString(delta) + rest;
    LeadingDigitsOf(NatToString(delta), rest);
  }

  /** Distinct (delta, centre) pairs give distinct column labels. */
  lemma LabelInjective(d1: nat, c1: nat, d2: nat, c2: nat)
    requires Label(d1, c1) == Label(d2, c2)
    ensures d1 == d2 && c1 == c2
  {
    LabelLeadingDigits(d1, c1);
    LabelLeadingDigits(d2, c2);
    NatToStringInjective(d1, d2);
    var s := Label(d1, c1);
    var k := |NatToString(d1)| + 2;
    var n1, n2 := NatToString(c1), NatToString(c2);
    assert |n1| == |n2|;
    assert s[k..k + |n1|] == n1;
    assert Label(d2, c2)[k..k + |n2|] == n2;
    NatToStringInjective(c1, c2);
  }

  /** One digit string's tag is a prefix of another's only when the digits agree. */
  lemma TagPrefix(cs: string, os: string)
    requires AllDigits(cs) && AllDigits(os)
    requires StartsWith("(" + cs + "Hz)", "(" + os + "Hz)")
    ensures cs == os
  {
    var u, t := "(" + cs + "Hz)", "(" + os + "Hz)";
    assert u[..|t|] == t;
    assert forall i :: 1 <= i < 1 + |cs| ==> IsDigit(u[i]);
    assert t[1 + |os|] == 'H';
    assert u[1 + |os|] == 'H';
    assert |os| == |cs|;
    assert u[1..1 + |cs|] == cs;
    assert t[1..1 + |os|] == os;
  }

  /** The label of a block names its centre's tag and no other centre's. */
  lemma LabelHasTag(delta: nat, center: nat, other: nat)
    ensures Contains(Label(delta, center), CenterTag(other)) <==> center == other
  {
    var s := Label(delta, center);
    var ds, cs, os := NatToString(delta), NatToString(center), NatToString(other);
    var t := CenterTag(other);
    var p := |ds| + 1;
    assert s == ds + " (" + cs + "Hz)";
    forall i | 0 <= i < |s| && s[i] == t[0] ensures i == p {
    }
    AnchoredContains(s, t, p);
    assert s[p..] == "(" + cs + "Hz)";
    if StartsWith(s[p..], t) {
      TagPrefix(cs, os);
      NatToStringInjective(center, other);
    }
  }

  /** Inverse of the delta column, per table: entry position from delta (C by delta / 6). */
  const InverseA: seq<int> := [-1, 4, 2, 8, 9, 5, 7, 6, 0, 3, 1]
  const InverseB: seq<int> := [-1, 1, 8, 7, 3, 0, 4, 2, 5, 9, 6]
  const InverseC: seq<int> := [-1, 9, 7, 6, 2, 4, 1, 8, 3, 5, 0]

  /** Where a (delta, centre) pair sits in the combined key (-1 if nowhere). */
  function Position(delta: nat, center: nat): int
  {
    if center == 200 && delta <= 10 then InverseA[delta]
    else if center == 1000 && delta <= 10 then 10 + InverseB[delta]
    else if center == 5000 && delta % 6 == 0 && delta <= 60 then 20 + InverseC[delta / 6]
    else -1
  }

  /** Each table, read through `Position`, gives back its entries' indices. */
  lemma PositionsA()
    ensures forall i :: 0 <= i < 10 ==> Position(Delta(KeyEntry(PartA[i].0, PartA[i].1, 200)), 200) == i
  {
    forall i | 0 <= i < 10 ensures Position(Delta(KeyEntry(PartA[i].0, PartA[i].1, 200)), 200) == i {
      assert i in {0, 1, 2, 3, 4, 5, 6, 7, 8, 9};
    }
  }

  lemma PositionsB()
    ensures forall i :: 0 <= i < 10 ==> Position(Delta(KeyEntry(PartB[i].0, PartB[i].1, 1000)), 1000) == 10 + i
  {
    forall i | 0 <= i < 10 ensures Position(Delta(KeyEntry(PartB[i].0, PartB[i].1, 1000)), 1000) == 10 + i {
      assert i in {0, 1, 2, 3, 4, 5, 6, 7, 8, 9};
    }
  }

  lemma PositionsC()
    ensures forall i :: 0 <= i < 10 ==> Position(Delta(KeyEntry(PartC[i].0, PartC[i].1, 5000)), 5000) == 20 + i
  {
    forall i | 0 <= i < 10 ensures Position(Delta(KeyEntry(PartC[i].0, PartC[i].1, 5000)), 5000) == 20 + i {
      assert i in {0, 1, 2, 3, 4, 5, 6, 7, 8, 9};
    }
  }

  /** Every pattern of a table is 4 letters over {F, S} and every delta is positive. */
  predicate WellFormedPart(part: seq<(string, nat)>, c: nat)
  {
    forall i :: 0 <= i < |part| ==>
      |part[i].0| == 4 && (forall j :: 0 <= j < 4 ==> part[i].0[j] in "FS") && part[i].1 != c
  }

  lemma {:induction false} PartsWellFormed()
    ensures WellFormedPart(PartA, 200) && WellFormedPart(PartB, 1000) && WellFormedPart(PartC, 5000)
  {
    forall i | 0 <= i < 10
      ensures |PartA[i].0| == 4 && (forall j :: 0 <= j < 4 ==> PartA[i].0[j] in "FS") && PartA[i].1 != 200
      ensures |PartB[i].0| == 4 && (forall j :: 0 <= j < 4 ==> PartB[i].0[j] in "FS") && PartB[i].1 != 1000
      ensures |PartC[i].0| == 4 && (forall j :: 0 <= j < 4 ==> PartC[i].0[j] in "FS") && PartC[i].1 != 5000
    {
      assert i in {0, 1, 2, 3, 4, 5, 6, 7, 8, 9};
    }
  }

  /**
    The combined key has 30 entries: 0-9 centred on 200 Hz, 10-19 on 1000 Hz,
    20-29 on 5000 Hz; every pattern is 4 letters over {F, S}, every delta is
    positive, and no two entries share a score column.
  */
  lemma {:induction false} CombinedKeysFacts()
    ensures |CombinedKeys()| == 30
    ensures forall i :: 0 <= i < 10 ==> CombinedKeys()[i].center == 200
    ensures forall i :: 10 <= i < 20 ==> CombinedKeys()[i].center == 1000
    ensures forall i :: 20 <= i < 30 ==> CombinedKeys()[i].center == 5000
    ensures forall i :: 0 <= i < 30 ==> |CombinedKeys()[i].pattern| == 4
    ensures forall i, j :: 0 <= i < 30 && 0 <= j < 4 ==> CombinedKeys()[i].pattern[j] in "FS"
    ensures forall i :: 0 <= i < 30 ==> Delta(CombinedKeys()[i]) > 0
    ensures forall i, j :: 0 <= i < 30 && 0 <= j < 30 && KeyLabel(CombinedKeys()[i]) == KeyLabel(CombinedKeys()[j]) ==> i == j
  {
    var keys := CombinedKeys();
    PositionsA();
    PositionsB();
    PositionsC();
    PartsWellFormed();
    forall i | 0 <= i < 30 ensures Position(Delta(keys[i]), keys[i].center) == i {
      if i < 10 {
        assert keys[i] == KeyEntry(PartA[i].0, PartA[i].1, 200);
      } else if i < 20 {
        assert keys[i] == KeyEntry(PartB[i - 10].0, PartB[i - 10].1, 1000);
      } else {
        assert keys[i] == KeyEntry(PartC[i - 20].0, PartC[i - 20].1, 5000);
      }
    }
    forall i | 0 <= i < 30
      ensures |keys[i].pattern| == 4 && (forall j :: 0 <= j < 4 ==> keys[i].pattern[j] in "FS") && Delta(keys[i]) > 0
    {
      if i < 10 {
        assert keys[i] == KeyEntry(PartA[i].0, PartA[i].1, 200);
      } else if i < 20 {
        assert keys[i] == KeyEntry(PartB[i - 10].0, PartB[i - 10].1, 1000);
      } else {
        assert keys[i] == KeyEntry(PartC[i - 20].0, PartC[i - 20].1, 5000);
      }
    }
    forall i, j | 0 <= i < 30 && 0 <= j < 30 && KeyLabel(keys[i]) == KeyLabel(keys[j])
      ensures i == j
    {
      LabelInjective(Delta(keys[i]), keys[i].center, Delta(keys[j]), keys[j].center);
    }
  }
}
