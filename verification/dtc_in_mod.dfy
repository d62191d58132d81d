/** The DTC IN_MOD panel (src/f_fee_tui/dtc_in_mod.py): which of its twelve
    labels show the ON mark for the eight `t0..t7` fields of a
    `DtcInModChanged` record. */
module DtcInMod {
  import opened Wrappers
  import opened Messages

  /** The field a label belongs to, 0 to 7. */
  type Channel = c: int | 0 <= c < 8

  /** A label on the panel: field `channel`, lit for field value `code`. Its
      widget id is `Name(l)`, for instance `T1-010` for channel 1, code 2. */
  datatype Label = Label(channel: Channel, code: int)

  /** One field's table: field value to label, in the dict's insertion
      order (a Python dict keeps that order, and `ALL_IDS` relies on it). */
  type Table = seq<(int, Label)>

  const T0: Table := [(1, Label(0, 1))]
  const T1: Table := [(1, Label(1, 1)), (2, Label(1, 2))]
  const T2: Table := [(1, Label(2, 1)), (2, Label(2, 2))]
  const T3: Table := [(1, Label(3, 1))]
  const T4: Table := [(1, Label(4, 1))]
  const T5: Table := [(1, Label(5, 1)), (2, Label(5, 2))]
  const T6: Table := [(1, Label(6, 1)), (2, Label(6, 2))]
  const T7: Table := [(1, Label(7, 1))]

  /** A three-digit binary spelling of a code: `1` is `001`, `2` is `010`. */
  function Bits(code: int): (b: string)
    ensures |b| == 3
  {
    var c := code % 8;
    [if c / 4 == 1 then '1' else '0', if (c / 2) % 2 == 1 then '1' else '0', if c % 2 == 1 then '1' else '0']
  }

  /** The widget id of a label: `T<channel>-<code in binary>`. */
  function Name(l: Label): (id: string)
    ensures |id| == 6 && id[0] == 'T' && id[2] == '-'
  {
    "T" + [('0' as int + l.channel) as char] + "-" + Bits(l.code)
  }

  /** The labels of a table, in order: `T.values()`. */
  function Values(t: Table): (ids: seq<Label>)
    ensures |ids| == |t|
    ensures forall i :: 0 <= i < |t| ==> ids[i] == t[i].1
  {
    if t == [] then [] else [t[0].1] + Values(t[1..])
  }

  /** `ALL_IDS`, written out; `AllIdsChained` shows it is the values of T0
      to T7 chained together, as the source builds it. */
  const AllIds: seq<Label> :=
    [Label(0, 1), Label(1, 1), Label(1, 2), Label(2, 1), Label(2, 2), Label(3, 1),
     Label(4, 1), Label(5, 1), Label(5, 2), Label(6, 1), Label(6, 2), Label(7, 1)]

  /** `ALL_IDS` as a set. */
  function AllIdSet(): set<Label>
  {
    set id | id in AllIds
  }

  /** Membership of `ALL_IDS`, spelled out label by label. */
  predicate OnPanel(l: Label)
  {
    l == Label(0, 1) || l == Label(1, 1) || l == Label(1, 2) || l == Label(2, 1) || l == Label(2, 2)
    || l == Label(3, 1) || l == Label(4, 1) || l == Label(5, 1) || l == Label(5, 2) || l == Label(6, 1)
    || l == Label(6, 2) || l == Label(7, 1)
  }

  lemma OnPanelIff(l: Label)
    ensures l in AllIdSet() <==> OnPanel(l)
  {
  }

  /** `ALL_IDS` is the values of T0 to T7 in order, twelve distinct labels. */
  lemma AllIdsChained()
    ensures AllIds == Values(T0) + Values(T1) + Values(T2) + Values(T3) + Values(T4) + Values(T5) + Values(T6) + Values(T7)
    ensures |AllIds| == 12
    ensures forall i, j :: 0 <= i < j < |AllIds| ==> AllIds[i] != AllIds[j]
  {
  }

  /** The labels of `ALL_IDS` are spelled as the source spells their widget
      ids. */
  lemma AllIdNamesFirstHalf()
    ensures Name(AllIds[0]) == "T0-001" && Name(AllIds[1]) == "T1-001" && Name(AllIds[2]) == "T1-010"
    ensures Name(AllIds[3]) == "T2-001" && Name(AllIds[4]) == "T2-010" && Name(AllIds[5]) == "T3-001"
  {
  }

  lemma AllIdNamesSecondHalf()
    ensures Name(AllIds[6]) == "T4-001" && Name(AllIds[7]) == "T5-001" && Name(AllIds[8]) == "T5-010"
    ensures Name(AllIds[9]) == "T6-001" && Name(AllIds[10]) == "T6-010" && Name(AllIds[11]) == "T7-001"
  {
  }

  /** Distinct labels with three-bit codes have distinct widget ids, so
      turning a label on or off by its id touches that label only. */
  lemma NameInjective(a: Label, b: Label)
    requires 0 <= a.code < 8 && 0 <= b.code < 8
    ensures Name(a) == Name(b) <==> a == b
  {
    if Name(a) == Name(b) {
      assert Name(a)[1] == Name(b)[1];
      assert Bits(a.code) == Name(a)[3..];
      assert Bits(b.code) == Name(b)[3..];
      assert a.code == (if Bits(a.code)[0] == '1' then 4 else 0) + (if Bits(a.code)[1] == '1' then 2 else 0)
                       + (if Bits(a.code)[2] == '1' then 1 else 0);
      assert b.code == (if Bits(b.code)[0] == '1' then 4 else 0) + (if Bits(b.code)[1] == '1' then 2 else 0)
                       + (if Bits(b.code)[2] == '1' then 1 else 0);
    }
  }

  /** The value of field `t<k>` of a record. */
  function Field(m: Event, k: Channel): int
    requires m.DtcInModChanged?
  {
    match k
    case 0 => m.t0
    case 1 => m.t1
    case 2 => m.t2
    case 3 => m.t3
    case 4 => m.t4
    case 5 => m.t5
    case 6 => m.t6
    case 7 => m.t7
  }

  /** `if t == 0b001: <light l1>`. */
  function IfOne(v: int, l1: Label): (r: set<Label>)
    ensures forall l :: l in r <==> l == l1 && v == 1
  {
    if v == 1 then {l1} else {}
  }

  /** `if t == 0b001: <light l1> elif t == 0b010: <light l2>`. */
  function IfOneTwo(v: int, l1: Label, l2: Label): (r: set<Label>)
    requires l1 != l2
    ensures forall l :: l in r <==> (l == l1 && v == 1) || (l == l2 && v == 2)
  {
    if v == 1 then {l1} else if v == 2 then {l2} else {}
  }

  /** The labels the eight if/elif chains of `set_state` turn ON. */
  function Chains(m: Event): (lit: set<Label>)
    requires m.DtcInModChanged?
    ensures forall l :: l in lit <==> OnPanel(l) && Field(m, l.channel) == l.code
  {
    IfOne(m.t0, Label(0, 1)) + IfOneTwo(m.t1, Label(1, 1), Label(1, 2))
    + IfOneTwo(m.t2, Label(2, 1), Label(2, 2)) + IfOne(m.t3, Label(3, 1)) + IfOne(m.t4, Label(4, 1))
    + IfOneTwo(m.t5, Label(5, 1), Label(5, 2)) + IfOneTwo(m.t6, Label(6, 1), Label(6, 2)) + IfOne(m.t7, Label(7, 1))
  }

  /** `set_state`: the labels showing ON afterwards, given those showing ON
      before. Every id in `ALL_IDS` is first turned OFF, then the chains
      light theirs. */
  function SetState(prior: set<Label>, m: Event): (lit: set<Label>)
    requires m.DtcInModChanged?
    ensures lit - AllIdSet() == prior - AllIdSet()
  {
    (prior - AllIdSet()) + Chains(m)
  }

  /** A panel label shows ON after `set_state` exactly when its field holds
      its code: `Tk-001` for value 1, `Tk-010` for value 2. So value 2 lights
      nothing on the single-label fields T0, T3, T4 and T7, and any other
      value lights nothing at all. */
  lemma SetStateLights(prior: set<Label>, m: Event, l: Label)
    requires m.DtcInModChanged?
    ensures OnPanel(l) ==> (l in SetState(prior, m) <==> Field(m, l.channel) == l.code)
    ensures !OnPanel(l) ==> (l in SetState(prior, m) <==> l in prior)
  {
    OnPanelIff(l);
    assert Chains(m) <= AllIdSet() by {
      forall x | x in Chains(m) ensures x in AllIdSet() {
        OnPanelIff(x);
      }
    }
  }

  /** `t.get(v)`: the label a table names for a field value, if any. */
  function Lookup(t: Table, v: int): (r: Option<Label>)
    ensures r.Some? ==> r.value in Values(t)
  {
    if t == [] then None
    else if t[0].0 == v then Some(t[0].1)
    else Lookup(t[1..], v)
  }

  /** The labels a table lights for a field value: the looked-up label, or
      none. */
  function Lit(t: Table, v: int): (ids: set<Label>)
    ensures |ids| <= 1
  {
    match Lookup(t, v)
    case None => {}
    case Some(id) => {id}
  }

  /** The reference definition of the panel: each field lights what its
      table names for its value, and nothing else is lit. */
  function Reference(m: Event): set<Label>
    requires m.DtcInModChanged?
  {
    Lit(T0, m.t0) + Lit(T1, m.t1) + Lit(T2, m.t2) + Lit(T3, m.t3)
    + Lit(T4, m.t4) + Lit(T5, m.t5) + Lit(T6, m.t6) + Lit(T7, m.t7)
  }

  /** A one-entry table lights as the single `if` of `set_state` does. */
  lemma LitIfOne(l1: Label, v: int)
    ensures Lit([(1, l1)], v) == IfOne(v, l1)
  {
    assert [(1, l1)][1..] == [];
  }

  /** A two-entry table lights as the `if`/`elif` of `set_state` does. */
  lemma LitIfOneTwo(l1: Label, l2: Label, v: int)
    requires l1 != l2
    ensures Lit([(1, l1), (2, l2)], v) == IfOneTwo(v, l1, l2)
  {
    assert [(1, l1), (2, l2)][1..] == [(2, l2)];
    assert Lookup([(2, l2)], v) == if v == 2 then Some(l2) else None by {
      assert [(2, l2)][1..] == [];
    }
  }

  /** The if/elif chains agree with the tables, field by field. */
  lemma ChainsMatchTables(m: Event)
    requires m.DtcInModChanged?
    ensures Chains(m) == Reference(m)
  {
    LitIfOne(Label(0, 1), m.t0);
    LitIfOneTwo(Label(1, 1), Label(1, 2), m.t1);
    LitIfOneTwo(Label(2, 1), Label(2, 2), m.t2);
    LitIfOne(Label(3, 1), m.t3);
    LitIfOne(Label(4, 1), m.t4);
    LitIfOneTwo(Label(5, 1), Label(5, 2), m.t5);
    LitIfOneTwo(Label(6, 1), Label(6, 2), m.t6);
    LitIfOne(Label(7, 1), m.t7);
  }

  /** Among the labels of `ALL_IDS`, exactly those the tables name for the
      current field values are lit, whatever was lit before. */
  lemma SetStateMatchesTables(prior: set<Label>, m: Event)
    requires m.DtcInModChanged?
    ensures SetState(prior, m) * AllIdSet() == Reference(m)
  {
    ChainsMatchTables(m);
    forall l | l in Chains(m) ensures l in AllIdSet() {
      OnPanelIff(l);
    }
  }

  /** Two panel labels of the same field are never both lit. */
  lemma OnePerChannel(prior: set<Label>, m: Event, a: Label, b: Label)
    requires m.DtcInModChanged?
    requires OnPanel(a) && OnPanel(b) && a.channel == b.channel
    ensures a in SetState(prior, m) && b in SetState(prior, m) ==> a == b
  {
    SetStateLights(prior, m, a);
    SetStateLights(prior, m, b);
  }

  lemma UnionSize(a: set<Label>, b: set<Label>)
    ensures |a + b| <= |a| + |b|
  {
    assert a + b == a + (b - a);
    assert |a + (b - a)| == |a| + |b - a|;
  }

  /** At most one label per field is lit, so at most eight labels of the
      panel show ON. */
  lemma AtMostEightLit(prior: set<Label>, m: Event)
    requires m.DtcInModChanged?
    ensures |SetState(prior, m) * AllIdSet()| <= 8
  {
    SetStateMatchesTables(prior, m);
    var u1 := Lit(T0, m.t0) + Lit(T1, m.t1);
    UnionSize(Lit(T0, m.t0), Lit(T1, m.t1));
    var u2 := u1 + Lit(T2, m.t2);
    UnionSize(u1, Lit(T2, m.t2));
    var u3 := u2 + Lit(T3, m.t3);
    UnionSize(u2, Lit(T3, m.t3));
    var u4 := u3 + Lit(T4, m.t4);
    UnionSize(u3, Lit(T4, m.t4));
    var u5 := u4 + Lit(T5, m.t5);
    UnionSize(u4, Lit(T5, m.t5));
    var u6 := u5 + Lit(T6, m.t6);
    UnionSize(u5, Lit(T6, m.t6));
    UnionSize(u6, Lit(T7, m.t7));
  }

  /** Only the current record decides which panel labels are lit: the
      earlier state of the panel does not matter. */
  lemma SetStateForgetsPrior(p1: set<Label>, p2: set<Label>, m: Event)
    requires m.DtcInModChanged?
    ensures SetState(p1, m) * AllIdSet() == SetState(p2, m) * AllIdSet()
  {
    SetStateMatchesTables(p1, m);
    SetStateMatchesTables(p2, m);
  }

  /** Applying the same record twice is the same as applying it once. */
  lemma SetStateIdempotent(prior: set<Label>, m: Event)
    requires m.DtcInModChanged?
    ensures SetState(SetState(prior, m), m) == SetState(prior, m)
  {
    var once := SetState(prior, m);
    calc {
      SetState(once, m);
      (once - AllIdSet()) + Chains(m);
      { assert once - AllIdSet() == prior - AllIdSet(); }
      (prior - AllIdSet()) + Chains(m);
    }
  }
}
