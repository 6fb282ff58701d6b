/** What the type that a text says admits. */
module TypeTextMeans {
  import opened Wrappers
  import opened Json
  import opened CapabilitySchema
  import opened TypeScript
  import opened SchemaTypes
  import opened SchemaSoundness
  import opened TypeText
  import opened TypeTextReads

  ghost predicate RowHolds(v: Json, row: seq<Ty>) {
    forall a | a in row :: Inhabits(v, a)
  }

  ghost predicate RowsHold(v: Json, rows: seq<seq<Ty>>) {
    exists row | row in rows :: RowHolds(v, row)
  }

  lemma InterMeans(v: Json, row: seq<Ty>)
    ensures Inhabits(v, Inter(row)) <==> RowHolds(v, row)
  {
  }

  lemma UnionMeans(v: Json, arms: seq<Ty>)
    ensures Inhabits(v, Union(arms)) <==> exists a | a in arms :: Inhabits(v, a)
  {
    if |arms| == 1 { assert arms[0] in arms; }
  }

  function Arms(rows: seq<seq<Ty>>): seq<Ty> {
    seq(|rows|, i requires 0 <= i < |rows| => Inter(rows[i]))
  }

  lemma ArmsMean(v: Json, rows: seq<seq<Ty>>)
    ensures (exists a | a in Arms(rows) :: Inhabits(v, a)) <==> RowsHold(v, rows)
  {
    var arms := Arms(rows);
    forall i | 0 <= i < |rows| ensures Inhabits(v, arms[i]) <==> RowHolds(v, rows[i]) { InterMeans(v, rows[i]); }
    if row :| row in rows && RowHolds(v, row) {
      var i :| 0 <= i < |rows| && rows[i] == row;
      assert arms[i] in arms;
    }
    if a :| a in arms && Inhabits(v, a) {
      var i :| 0 <= i < |rows| && arms[i] == a;
      assert rows[i] in rows;
    }
  }

  lemma FromRowsMeans(v: Json, rows: seq<seq<Ty>>)
    ensures Inhabits(v, FromRows(rows)) <==> RowsHold(v, rows)
  {
    assert FromRows(rows) == Union(Arms(rows));
    UnionMeans(v, Arms(rows));
    ArmsMean(v, rows);
  }

  // ---------- alternatives under an intersection ----------

  /** No operator `|` in the text outside brackets. */
  predicate OneAlternative(t: Ty)
    decreases t
  {
    match t
    case TUnion(arms) => |arms| == 1 && OneAlternative(arms[0])
    case TInter(parts) => forall p | p in parts :: OneAlternative(p)
    case _ => true
  }

  /** Several alternatives stand alone wherever they stand under an intersection. */
  predicate Straight(t: Ty)
    decreases t
  {
    match t
    case TArray(elem) => Straight(elem)
    case TRecord(value) => Straight(value)
    case TUnion(arms) => forall a | a in arms :: Straight(a)
    case TInter(parts) =>
      (|parts| > 1 ==> forall p | p in parts :: OneAlternative(p)) && forall p | p in parts :: Straight(p)
    case TObject(props, index) =>
      (forall p | p in props :: Straight(p.ty)) && (index.Some? ==> Straight(index.value))
    case _ => true
  }

  lemma {:induction false} OneRow(t: Ty)
    requires TextOk(t) && OneAlternative(t)
    ensures |Rows(t)| == 1
    decreases t, 1
  {
    match t {
      case TUnion(arms) =>
        assert arms[0] in arms;
        OneRow(arms[0]);
        assert RowsOfUnion(arms) == Rows(arms[0]) + RowsOfUnion([]);
      case TInter(parts) => OneRowEach(t, parts);
      case _ =>
    }
  }

  lemma {:induction false} OneRowEach(t: Ty, parts: seq<Ty>)
    requires parts != [] && forall p | p in parts :: p < t && TextOk(p) && OneAlternative(p)
    ensures |RowsOfInter(parts)| == 1
    decreases t, 0, |parts|
  {
    assert parts[0] in parts;
    OneRow(parts[0]);
    if |parts| > 1 {
      assert forall p | p in parts[1..] :: p in parts;
      OneRowEach(t, parts[1..]);
    } else {
      assert RowsOfInter(parts[1..]) == [];
    }
  }

  // ---------- rows ----------

  lemma ConcatHolds(v: Json, a: seq<seq<Ty>>, b: seq<seq<Ty>>)
    ensures RowsHold(v, a + b) <==> RowsHold(v, a) || RowsHold(v, b)
  {
    if RowsHold(v, a) {
      var row :| row in a && RowHolds(v, row);
      assert row in a + b;
    }
    if RowsHold(v, b) {
      var row :| row in b && RowHolds(v, row);
      assert row in a + b;
    }
  }

  lemma SingleHolds(v: Json, row: seq<Ty>)
    ensures RowsHold(v, [row]) <==> RowHolds(v, row)
  {
    assert row in [row];
  }

  lemma JoinedRow(v: Json, a: seq<Ty>, b: seq<Ty>)
    ensures RowHolds(v, a + b) <==> RowHolds(v, a) && RowHolds(v, b)
  {
    assert forall x | x in a :: x in a + b;
    assert forall x | x in b :: x in a + b;
  }

  /** Grouping without parentheses loses no value of an intersection, and adds none between single alternatives. */
  lemma MergeHolds(v: Json, a: seq<seq<Ty>>, b: seq<seq<Ty>>)
    requires a != [] && b != []
    ensures RowsHold(v, a) && RowsHold(v, b) ==> RowsHold(v, Merge(a, b))
    ensures |a| == 1 && |b| == 1 ==> (RowsHold(v, Merge(a, b)) <==> RowsHold(v, a) && RowsHold(v, b))
  {
    var init, last := a[..|a| - 1], a[|a| - 1];
    var m := [last + b[0]];
    assert a == init + [last] && b == [b[0]] + b[1..];
    ConcatHolds(v, init, [last]);
    ConcatHolds(v, [b[0]], b[1..]);
    ConcatHolds(v, init + m, b[1..]);
    ConcatHolds(v, init, m);
    SingleHolds(v, last);
    SingleHolds(v, b[0]);
    SingleHolds(v, last + b[0]);
    JoinedRow(v, last, b[0]);
  }

  // ---------- types ----------

  /** What is shown of a type and of the type its text says. */
  ghost predicate Alike(v: Json, t: Ty, admits: bool) {
    (Inhabits(v, t) ==> admits) && (Straight(t) && admits ==> Inhabits(v, t))
  }

  lemma {:induction false} UnionAlike(v: Json, t: Ty, arms: seq<Ty>)
    requires forall a | a in arms :: a < t && TextOk(a)
    ensures (exists a | a in arms :: Inhabits(v, a)) ==> RowsHold(v, RowsOfUnion(arms))
    ensures Straight(TUnion(arms)) && RowsHold(v, RowsOfUnion(arms)) ==> exists a | a in arms :: Inhabits(v, a)
    decreases t, 1, |arms|
  {
    if arms != [] {
      assert arms[0] in arms && arms == [arms[0]] + arms[1..];
      assert forall a | a in arms[1..] :: a in arms;
      RowsAlike(v, arms[0]);
      UnionAlike(v, t, arms[1..]);
      ConcatHolds(v, Rows(arms[0]), RowsOfUnion(arms[1..]));
    }
  }

  ghost predicate HasAll(v: Json, parts: seq<Ty>) {
    forall p | p in parts :: Inhabits(v, p)
  }

  /** What is shown of the parts of an intersection and of the rows of their text. */
  ghost predicate AlikeAll(v: Json, parts: seq<Ty>, admits: bool) {
    (HasAll(v, parts) ==> admits) && (Straight(TInter(parts)) && admits ==> HasAll(v, parts))
  }

  lemma {:induction false} InterAlike(v: Json, t: Ty, parts: seq<Ty>)
    requires parts != [] && forall p | p in parts :: p < t && TextOk(p)
    ensures AlikeAll(v, parts, RowsHold(v, RowsOfInter(parts)))
    decreases t, 1, |parts|
  {
    var more := parts[1..];
    assert parts[0] in parts && forall p | p in more :: p in parts;
    RowsAlike(v, parts[0]);
    if more == [] {
      OnePart(v, parts);
    } else {
      InterAlike(v, t, more);
      MoreParts(v, t, parts);
    }
  }

  lemma OnePart(v: Json, parts: seq<Ty>)
    requires |parts| == 1 && Alike(v, parts[0], RowsHold(v, Rows(parts[0])))
    ensures AlikeAll(v, parts, RowsHold(v, RowsOfInter(parts)))
  {
    assert parts[0] in parts && RowsOfInter(parts[1..]) == [];
  }

  lemma StraightParts(parts: seq<Ty>)
    requires |parts| > 1 && Straight(TInter(parts))
    ensures Straight(parts[0]) && Straight(TInter(parts[1..])) && forall p | p in parts :: OneAlternative(p)
  {
    assert parts[0] in parts && forall p | p in parts[1..] :: p in parts;
  }

  lemma HasAllParts(v: Json, parts: seq<Ty>)
    requires parts != []
    ensures HasAll(v, parts) <==> Inhabits(v, parts[0]) && HasAll(v, parts[1..])
  {
    assert parts == [parts[0]] + parts[1..];
  }

  lemma MoreParts(v: Json, t: Ty, parts: seq<Ty>)
    requires |parts| > 1 && forall p | p in parts :: p < t && TextOk(p)
    requires Alike(v, parts[0], RowsHold(v, Rows(parts[0])))
    requires AlikeAll(v, parts[1..], RowsHold(v, RowsOfInter(parts[1..])))
    ensures AlikeAll(v, parts, RowsHold(v, RowsOfInter(parts)))
  {
    assert parts == [parts[0]] + parts[1..] && parts[0] in parts && forall p | p in parts[1..] :: p in parts;
    HasAllParts(v, parts);
    InterHolds(v, t, parts[0], parts[1..]);
    if Straight(TInter(parts)) { StraightParts(parts); }
  }

  /** One more part of an intersection. */
  lemma InterHolds(v: Json, t: Ty, first: Ty, more: seq<Ty>)
    requires more != [] && TextOk(first) && forall p | p in more :: p < t && TextOk(p)
    ensures var a, b, all := Rows(first), RowsOfInter(more), RowsOfInter([first] + more);
      && (RowsHold(v, a) && RowsHold(v, b) ==> RowsHold(v, all))
      && (OneAlternative(first) && (forall p | p in more :: OneAlternative(p)) ==>
            (RowsHold(v, all) <==> RowsHold(v, a) && RowsHold(v, b)))
  {
    assert ([first] + more)[1..] == more;
    RowsNonEmpty(first);
    UnionNonEmpty(more);
    MergeHolds(v, Rows(first), RowsOfInter(more));
    if OneAlternative(first) && forall p | p in more :: OneAlternative(p) {
      OneRow(first);
      OneRowEach(t, more);
    }
  }

  lemma {:induction false} RowsAlike(v: Json, t: Ty)
    requires TextOk(t)
    ensures Alike(v, t, RowsHold(v, Rows(t)))
    decreases t, 2
  {
    if t.TUnion? {
      UnionAlike(v, t, t.arms);
    } else if t.TInter? {
      InterAlike(v, t, t.parts);
      assert HasAll(v, t.parts) <==> Inhabits(v, t);
    } else {
      AtomAlike(v, t);
      AtomHolds(v, Atom(t));
    }
  }

  lemma AtomHolds(v: Json, atom: Ty)
    ensures RowsHold(v, [[atom]]) <==> Inhabits(v, atom)
  {
    SingleHolds(v, [atom]);
    assert atom in [atom];
  }

  lemma {:induction false} AtomAlike(v: Json, t: Ty)
    requires IsAtom(t) && TextOk(t)
    ensures Alike(v, t, Inhabits(v, Atom(t)))
    decreases t, 1
  {
    match t {
      case TArray(elem) => ArrayAlike(v, elem);
      case TRecord(value) => RecordAlike(v, value);
      case TObject(_, _) => ObjectAlike(v, t);
      case _ =>
    }
  }

  lemma {:induction false} ArrayAlike(v: Json, elem: Ty)
    requires TextOk(elem)
    ensures Alike(v, TArray(elem), Inhabits(v, TArray(ReadAs(elem))))
    decreases elem, 4
  {
    if v.JArr? {
      forall x | x in v.items ensures Alike(x, elem, Inhabits(x, ReadAs(elem))) { TypeAlike(x, elem); }
    }
  }

  lemma {:induction false} RecordAlike(v: Json, value: Ty)
    requires TextOk(value)
    ensures Alike(v, TRecord(value), Inhabits(v, TRecord(ReadAs(value))))
    decreases value, 4
  {
    if v.JObj? {
      forall m | m in v.members ensures Alike(m.value, value, Inhabits(m.value, ReadAs(value))) {
        TypeAlike(m.value, value);
      }
    }
  }

  lemma {:induction false} TypeAlike(v: Json, t: Ty)
    requires TextOk(t)
    ensures Alike(v, t, Inhabits(v, ReadAs(t)))
    decreases t, 3
  {
    RowsAlike(v, t);
    FromRowsMeans(v, Rows(t));
  }

  lemma {:induction false} PropsAsAt(props: seq<Prop>, i: nat)
    requires i < |props|
    ensures PropsAs(props)[i] == PropAs(props[i])
  {
    if i > 0 { PropsAsAt(props[1..], i - 1); }
  }

  lemma ListedAlike(props: seq<Prop>, key: string)
    ensures Listed(PropsAs(props), key) <==> Listed(props, key)
  {
    forall i | 0 <= i < |props| ensures PropsAs(props)[i] == PropAs(props[i]) { PropsAsAt(props, i); }
    if p :| p in props && p.key == key {
      var i :| 0 <= i < |props| && props[i] == p;
      assert PropsAs(props)[i] in PropsAs(props);
    }
    if p :| p in PropsAs(props) && p.key == key {
      var i :| 0 <= i < |props| && PropsAs(props)[i] == p;
      assert props[i] in props;
    }
  }

  /** The three conditions on an object, on their own. */
  ghost predicate HasRequired(v: Json, props: seq<Prop>)
    requires v.JObj?
  {
    forall p | p in props && !p.optional :: Find(v.members, p.key).Some?
  }

  ghost predicate MembersFit(v: Json, props: seq<Prop>)
    requires v.JObj?
  {
    forall m, p | m in v.members && p in props && p.key == m.key :: Inhabits(m.value, p.ty)
  }

  ghost predicate ExtrasFit(v: Json, props: seq<Prop>, index: Option<Ty>)
    requires v.JObj?
  {
    index.Some? ==> forall m | m in v.members && !Listed(props, m.key) :: Inhabits(m.value, index.value)
  }

  lemma ObjectMeans(v: Json, props: seq<Prop>, index: Option<Ty>)
    ensures Inhabits(v, ObjectOf(props, index))
      <==> v.JObj? && HasRequired(v, props) && MembersFit(v, props) && ExtrasFit(v, props, index)
    ensures Inhabits(v, TObject(props, index)) <==> Inhabits(v, ObjectOf(props, index))
  {
  }

  lemma RequiredAlike(v: Json, props: seq<Prop>)
    requires v.JObj?
    ensures HasRequired(v, PropsAs(props)) <==> HasRequired(v, props)
  {
    forall i | 0 <= i < |props| ensures PropsAs(props)[i] == PropAs(props[i]) { PropsAsAt(props, i); }
    if HasRequired(v, PropsAs(props)) {
      forall p | p in props && !p.optional ensures Find(v.members, p.key).Some? {
        var i :| 0 <= i < |props| && props[i] == p;
        assert PropsAs(props)[i] in PropsAs(props);
      }
    }
    if HasRequired(v, props) {
      forall p | p in PropsAs(props) && !p.optional ensures Find(v.members, p.key).Some? {
        var i :| 0 <= i < |props| && PropsAs(props)[i] == p;
        assert props[i] in props;
      }
    }
  }

  lemma {:induction false} MembersAlike(v: Json, t: Ty)
    requires t.TObject? && TextOk(t) && v.JObj?
    ensures MembersFit(v, t.props) ==> MembersFit(v, PropsAs(t.props))
    ensures Straight(t) && MembersFit(v, PropsAs(t.props)) ==> MembersFit(v, t.props)
    decreases t, 0, 0
  {
    var props := t.props;
    forall i | 0 <= i < |props| ensures PropsAs(props)[i] == PropAs(props[i]) { PropsAsAt(props, i); }
    forall m, i | m in v.members && 0 <= i < |props|
      ensures Alike(m.value, props[i].ty, Inhabits(m.value, PropsAs(props)[i].ty))
    {
      assert props[i] in props;
      TypeAlike(m.value, props[i].ty);
    }
    if MembersFit(v, props) {
      forall m, p | m in v.members && p in PropsAs(props) && p.key == m.key ensures Inhabits(m.value, p.ty) {
        var i :| 0 <= i < |props| && PropsAs(props)[i] == p;
        assert props[i] in props && Alike(m.value, props[i].ty, Inhabits(m.value, PropsAs(props)[i].ty));
      }
    }
    if Straight(t) && MembersFit(v, PropsAs(props)) {
      forall m, p | m in v.members && p in props && p.key == m.key ensures Inhabits(m.value, p.ty) {
        var i :| 0 <= i < |props| && props[i] == p;
        assert PropsAs(props)[i] in PropsAs(props);
        assert Alike(m.value, props[i].ty, Inhabits(m.value, PropsAs(props)[i].ty));
      }
    }
  }

  lemma {:induction false} ExtrasAlike(v: Json, t: Ty)
    requires t.TObject? && TextOk(t) && v.JObj?
    ensures ExtrasFit(v, t.props, t.index) ==> ExtrasFit(v, PropsAs(t.props), IndexAs(t.index))
    ensures Straight(t) && ExtrasFit(v, PropsAs(t.props), IndexAs(t.index)) ==> ExtrasFit(v, t.props, t.index)
    decreases t, 0, 0
  {
    if t.index.Some? {
      forall m | m in v.members
        ensures Listed(PropsAs(t.props), m.key) <==> Listed(t.props, m.key)
        ensures Alike(m.value, t.index.value, Inhabits(m.value, ReadAs(t.index.value)))
      {
        ListedAlike(t.props, m.key);
        TypeAlike(m.value, t.index.value);
      }
    }
  }

  lemma {:induction false} ObjectAlike(v: Json, t: Ty)
    requires t.TObject? && TextOk(t)
    ensures Alike(v, t, Inhabits(v, Atom(t)))
    decreases t, 0, 1
  {
    ObjectMeans(v, t.props, t.index);
    ObjectMeans(v, PropsAs(t.props), IndexAs(t.index));
    if v.JObj? {
      RequiredAlike(v, t.props);
      MembersAlike(v, t);
      ExtrasAlike(v, t);
    }
  }

  // ---------- the emitted text ----------

  /** The type that the text of a type says admits every value of the type, and no other if several alternatives never
      stand beside something else under an intersection. */
  lemma TextMeans(t: Ty, v: Json)
    requires TextOk(t)
    ensures Inhabits(v, t) ==> Inhabits(v, ReadAs(t))
    ensures Straight(t) ==> (Inhabits(v, ReadAs(t)) <==> Inhabits(v, t))
  {
    TypeAlike(v, t);
  }

  /** The emitted text over-approximates the schema: it says a type that admits every accepted value. */
  lemma EmittedTextIsSound(l: Literals, env: Env, j: Json, v: Json, depth: nat)
    requires Faithful(l) && TextOk(Compile(j)) && NoInherited(env.inherited, j) && Accepts(env, j, v)
    ensures ReadType(l, Print(l.str, Compile(j), depth)) == Some((ReadAs(Compile(j)), ""))
    ensures Inhabits(v, ReadAs(Compile(j)))
  {
    TextReads(l, Compile(j), depth);
    Sound(env, j, v);
    TextMeans(Compile(j), v);
  }

  // ---------- missing parentheses ----------

  /** `a` or `b`, and at the same time `c`. */
  function Grouped(a: Ty, b: Ty, c: Ty): Ty {
    TInter([TUnion([a, b]), c])
  }

  lemma EitherMeans(v: Json, a: Ty, b: Ty)
    ensures Inhabits(v, TUnion([a, b])) <==> Inhabits(v, a) || Inhabits(v, b)
  {
    assert a in [a, b] && b in [a, b];
  }

  lemma BothMean(v: Json, a: Ty, b: Ty)
    ensures Inhabits(v, TInter([a, b])) <==> Inhabits(v, a) && Inhabits(v, b)
  {
    assert a in [a, b] && b in [a, b];
  }

  lemma GroupedMeans(v: Json, a: Ty, b: Ty, c: Ty)
    ensures Inhabits(v, Grouped(a, b, c)) <==> (Inhabits(v, a) || Inhabits(v, b)) && Inhabits(v, c)
  {
    EitherMeans(v, a, b);
    BothMean(v, TUnion([a, b]), c);
  }

  lemma GroupedRows(a: Ty, b: Ty, c: Ty)
    requires TextOk(b) && TextOk(c) && OneAlternative(b) && OneAlternative(c)
    ensures |Rows(b)| == 1 && |Rows(c)| == 1 && Rows(Grouped(a, b, c)) == Rows(a) + [Rows(b)[0] + Rows(c)[0]]
  {
    OneRow(b);
    OneRow(c);
    var u := TUnion([a, b]);
    assert [a, b][1..] == [b] && [b][1..] == [] && [u, c][1..] == [c] && [c][1..] == [];
    assert RowsOfUnion([b]) == Rows(b) + [];
    assert Rows(u) == Rows(a) + Rows(b);
    assert RowsOfInter([c]) == Rows(c);
    assert Rows(Grouped(a, b, c)) == Merge(Rows(a) + Rows(b), Rows(c));
    assert (Rows(a) + Rows(b))[..|Rows(a)|] == Rows(a);
  }

  /** Its text has no parentheses, so it says `a`, or `b` and `c`. */
  lemma UngroupedMeans(v: Json, a: Ty, b: Ty, c: Ty)
    requires TextOk(a) && TextOk(b) && TextOk(c) && Straight(a) && Straight(b) && Straight(c)
    requires OneAlternative(b) && OneAlternative(c)
    ensures Inhabits(v, ReadAs(Grouped(a, b, c))) <==> Inhabits(v, a) || (Inhabits(v, b) && Inhabits(v, c))
  {
    GroupedRows(a, b, c);
    RowsAlike(v, a);
    RowsAlike(v, b);
    RowsAlike(v, c);
    var rb, rc := Rows(b)[0], Rows(c)[0];
    assert Rows(b) == [rb] && Rows(c) == [rc];
    SingleHolds(v, rb);
    SingleHolds(v, rc);
    SingleHolds(v, rb + rc);
    JoinedRow(v, rb, rc);
    ConcatHolds(v, Rows(a), [rb + rc]);
    FromRowsMeans(v, Rows(Grouped(a, b, c)));
  }

  ghost predicate SameValues(a: Ty, b: Ty) {
    forall v :: Inhabits(v, a) <==> Inhabits(v, b)
  }

  ghost predicate Within(a: Ty, b: Ty) {
    forall v :: Inhabits(v, a) ==> Inhabits(v, b)
  }

  /** So the text of an intersection over alternatives has the values of the type exactly when every value of the
      alternatives that the operator leaves out is a value of the other part anyway. */
  lemma ParenthesesIff(a: Ty, b: Ty, c: Ty)
    requires TextOk(a) && TextOk(b) && TextOk(c) && Straight(a) && Straight(b) && Straight(c)
    requires OneAlternative(b) && OneAlternative(c)
    ensures SameValues(ReadAs(Grouped(a, b, c)), Grouped(a, b, c)) <==> Within(a, c)
  {
    forall v ensures (Inhabits(v, ReadAs(Grouped(a, b, c))) <==> Inhabits(v, Grouped(a, b, c)))
      <==> (Inhabits(v, a) ==> Inhabits(v, c))
    {
      GroupedMeans(v, a, b, c);
      UngroupedMeans(v, a, b, c);
    }
  }

  /** String or number, and at the same time number: the text admits every string. */
  lemma MissingParentheses(s: string)
    ensures var t := Grouped(TString(""), TNumber, TNumber);
      TextOk(t) && !Inhabits(JStr(s), t) && Inhabits(JStr(s), ReadAs(t))
  {
    GroupedMeans(JStr(s), TString(""), TNumber, TNumber);
    UngroupedMeans(JStr(s), TString(""), TNumber, TNumber);
  }
}
