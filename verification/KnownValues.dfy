/**
  The strings a JSON schema names: its own constant and enumeration, then those of
  its alternatives, each once, in the order of first mention.
 */
module KnownValues {
  import opened Basics

  /** Of a dictionary only the four entries that matter; `Other` is any other JSON value. */
  datatype Json =
    | Str(value: string)
    | Dict(constant: Option<Json>, options: seq<Json>, anyOf: seq<Json>, oneOf: seq<Json>)
    | Other

  // ------------------------------------------------ the flat specification

  function Strings(values: seq<Json>): seq<string> {
    if |values| == 0 then []
    else
      var front, last := Strings(values[..|values| - 1]), values[|values| - 1];
      if last.Str? then front + [last.value] else front
  }

  function Own(schema: Json): seq<string>
    requires schema.Dict?
  {
    (if schema.constant.Some? && schema.constant.value.Str? then [schema.constant.value.value] else []) +
        Strings(schema.options)
  }

  /** Every mention in the tree, in preorder, repetitions and all. */
  function Mentions(schema: Json): seq<string>
    decreases schema, 1, 0
  {
    if schema.Dict? then Own(schema) + (MentionsOf(schema, schema.anyOf) + MentionsOf(schema, schema.oneOf)) else []
  }

  function MentionsOf(parent: Json, branches: seq<Json>): seq<string>
    requires forall i | 0 <= i < |branches| :: branches[i] < parent
    decreases parent, 0, |branches|
  {
    if |branches| == 0 then []
    else MentionsOf(parent, branches[..|branches| - 1]) + Mentions(branches[|branches| - 1])
  }

  // ------------------------------------------------------- de-duplication

  /** `values` one after the other onto `kept`, skipping what is there already. */
  function Onto(kept: seq<string>, values: seq<string>): seq<string> {
    if |values| == 0 then kept
    else
      var front, last := Onto(kept, values[..|values| - 1]), values[|values| - 1];
      if last in front then front else front + [last]
  }

  function Distinct(values: seq<string>): seq<string> {
    Onto([], values)
  }

  lemma OntoNext(kept: seq<string>, values: seq<string>, last: string)
    ensures var front := Onto(kept, values);
            Onto(kept, values + [last]) == if last in front then front else front + [last]
  {
    assert (values + [last])[..|values|] == values;
  }

  lemma {:induction false} OntoHas(kept: seq<string>, values: seq<string>, v: string)
    ensures v in Onto(kept, values) <==> v in kept || v in values
  {
    if |values| > 0 {
      OntoHas(kept, values[..|values| - 1], v);
      assert v in values <==> v in values[..|values| - 1] || v == values[|values| - 1];
    }
  }

  lemma {:induction false} OntoJoined(kept: seq<string>, a: seq<string>, b: seq<string>)
    ensures Onto(kept, a + b) == Onto(Onto(kept, a), b)
  {
    if |b| == 0 {
      Unit(a);
    } else {
      var n := |b| - 1;
      OntoJoined(kept, a, b[..n]);
      OntoNext(kept, a + b[..n], b[n]);
      assert a + b == (a + b[..n]) + [b[n]];
    }
  }

  /** De-duplicating first makes no difference to what follows. */
  lemma {:induction false} OntoDistinct(kept: seq<string>, values: seq<string>)
    ensures Onto(kept, Distinct(values)) == Onto(kept, values)
  {
    if |values| > 0 {
      var n := |values| - 1;
      var front, last := Distinct(values[..n]), values[n];
      OntoDistinct(kept, values[..n]);
      if last in front {
        OntoHas([], values[..n], last);
        OntoHas(kept, values[..n], last);
      } else {
        OntoNext(kept, front, last);
      }
    }
  }

  /** What the specification means: the same strings, none twice, by first mention. */
  lemma {:induction false} DistinctMeans(values: seq<string>)
    ensures forall v :: v in Distinct(values) <==> v in values
    ensures forall i, j | 0 <= i < j < |Distinct(values)| :: Distinct(values)[i] != Distinct(values)[j]
    ensures forall i, j | 0 <= i < j < |Distinct(values)| ::
        First(values, Distinct(values)[i]) < First(values, Distinct(values)[j])
  {
    forall v
      ensures v in Distinct(values) <==> v in values
    {
      OntoHas([], values, v);
    }
    if |values| > 0 {
      var n := |values| - 1;
      var front := Distinct(values[..n]);
      DistinctMeans(values[..n]);
      forall i | 0 <= i < |front|
        ensures First(values, front[i]) == First(values[..n], front[i]) < n
      {
        assert front[i] in front;
        FirstEarly(values, front[i]);
      }
      if values[n] !in front {
        FirstIsLast(values);
      }
    }
  }

  /** Where a string is first mentioned. */
  function First(values: seq<string>, v: string): nat {
    if |values| == 0 || values[0] == v then 0 else 1 + First(values[1..], v)
  }

  lemma {:induction false} FirstEarly(values: seq<string>, v: string)
    requires |values| > 0 && v in values[..|values| - 1]
    ensures First(values, v) == First(values[..|values| - 1], v) < |values| - 1
  {
    var front := values[..|values| - 1];
    if values[0] != v {
      assert front[1..] == values[1..][..|values| - 2];
      assert v in front[1..];
      FirstEarly(values[1..], v);
    }
  }

  lemma {:induction false} FirstIsLast(values: seq<string>)
    requires |values| > 0 && values[|values| - 1] !in values[..|values| - 1]
    ensures First(values, values[|values| - 1]) == |values| - 1
  {
    if |values| > 1 {
      assert values[0] in values[..|values| - 1];
      assert values[1..][..|values| - 2] == values[..|values| - 1][1..];
      FirstIsLast(values[1..]);
    }
  }

  // --------------------------------------------------------------- the code

  /** list(dict.fromkeys(values)): a dictionary keeps its keys in the order of insertion. */
  method FromKeys(values: seq<string>) returns (keys: seq<string>)
    ensures keys == Distinct(values)
  {
    keys := [];
    for i := 0 to |values|
      invariant keys == Distinct(values[..i])
    {
      OntoNext([], values[..i], values[i]);
      assert values[..i + 1] == values[..i] + [values[i]];
      if values[i] !in keys {
        keys := keys + [values[i]];
      }
    }
    assert values[..|values|] == values;
  }

  /**
    Every level of the tree removes its duplicates; the result is that of
    removing duplicates once from the whole preorder list.
   */
  method KnownStringValues(schema: Json) returns (known: seq<string>)
    requires schema.Dict?
    ensures known == Distinct(Mentions(schema))
    decreases schema
  {
    hide Strings, Onto, Own;
    var values := OwnValues(schema);
    ghost var own := values;
    var branches := schema.anyOf + schema.oneOf;
    Unit(own);
    for i := 0 to |branches|
      invariant forall j | 0 <= j < |branches| :: branches[j] < schema
      invariant Distinct(values) == Distinct(own + MentionsOf(schema, branches[..i]))
    {
      ghost var before := MentionsOf(schema, branches[..i]);
      assert branches[..i + 1][..i] == branches[..i];
      assert MentionsOf(schema, branches[..i + 1]) == before + Mentions(branches[i]);
      Assoc(own, before, Mentions(branches[i]));
      if branches[i].Dict? {
        var nested := KnownStringValues(branches[i]);
        Absorb(values, own + before, Mentions(branches[i]));
        values := values + nested;
      } else {
        Unit(own + before);
      }
    }
    assert branches[..|branches|] == branches;
    MentionsSplit(schema, schema.anyOf, schema.oneOf);
    known := FromKeys(values);
  }

  /** The constant, if it is a string, and the strings among the options. */
  method OwnValues(schema: Json) returns (values: seq<string>)
    requires schema.Dict?
    ensures values == Own(schema)
  {
    values := [];
    if schema.constant.Some? && schema.constant.value.Str? {
      values := values + [schema.constant.value.value];
    }
    ghost var head := values;
    for i := 0 to |schema.options|
      invariant values == head + Strings(schema.options[..i])
    {
      assert schema.options[..i + 1][..i] == schema.options[..i];
      if schema.options[i].Str? {
        values := values + [schema.options[i].value];
      }
    }
    assert schema.options[..|schema.options|] == schema.options;
  }

  lemma Absorb(values: seq<string>, flat: seq<string>, more: seq<string>)
    requires Distinct(values) == Distinct(flat)
    ensures Distinct(values + Distinct(more)) == Distinct(flat + more)
  {
    OntoJoined([], values, Distinct(more));
    OntoDistinct(Distinct(values), more);
    OntoJoined([], flat, more);
  }

  lemma {:induction false} MentionsSplit(parent: Json, a: seq<Json>, b: seq<Json>)
    requires forall i | 0 <= i < |a| :: a[i] < parent
    requires forall i | 0 <= i < |b| :: b[i] < parent
    ensures forall i | 0 <= i < |a + b| :: (a + b)[i] < parent
    ensures MentionsOf(parent, a + b) == MentionsOf(parent, a) + MentionsOf(parent, b)
  {
    hide Mentions;
    if |b| == 0 {
      Unit(a);
      Unit(MentionsOf(parent, a));
    } else {
      var n := |b| - 1;
      MentionsSplit(parent, a, b[..n]);
      assert (a + b)[..|a| + n] == a + b[..n];
      Assoc(MentionsOf(parent, a), MentionsOf(parent, b[..n]), Mentions(b[n]));
    }
  }

  /** From the tree alone: the string is a constant or an option of the schema or of a branch below it. */
  predicate Mentioned(schema: Json, v: string)
    decreases schema
  {
    && schema.Dict?
    && (schema.constant == Some(Str(v)) || Str(v) in schema.options
        || (exists branch :: branch in schema.anyOf && Mentioned(branch, v))
        || (exists branch :: branch in schema.oneOf && Mentioned(branch, v)))
  }

  lemma {:induction false} StringsAre(values: seq<Json>, v: string)
    ensures v in Strings(values) <==> Str(v) in values
  {
    if |values| > 0 {
      var n := |values| - 1;
      StringsAre(values[..n], v);
      assert values == values[..n] + [values[n]];
    }
  }

  /** The list holds exactly the strings mentioned in the tree. */
  lemma {:induction false} MentionsAre(schema: Json, v: string)
    ensures v in Mentions(schema) <==> Mentioned(schema, v)
    decreases schema, 1, 0
  {
    if schema.Dict? {
      StringsAre(schema.options, v);
      BranchesAre(schema, schema.anyOf, v);
      BranchesAre(schema, schema.oneOf, v);
      assert v in Own(schema) <==> schema.constant == Some(Str(v)) || Str(v) in schema.options;
    }
  }

  lemma {:induction false} BranchesAre(parent: Json, branches: seq<Json>, v: string)
    requires forall i | 0 <= i < |branches| :: branches[i] < parent
    ensures v in MentionsOf(parent, branches) <==> exists branch :: branch in branches && Mentioned(branch, v)
    decreases parent, 0, |branches|
  {
    if |branches| > 0 {
      var n := |branches| - 1;
      BranchesAre(parent, branches[..n], v);
      MentionsAre(branches[n], v);
      assert branches == branches[..n] + [branches[n]];
    }
  }

  /** The order: the constant, the options, what anyOf mentions, what oneOf mentions. */
  lemma OrderShown()
    ensures var leaf := (s: string) => Dict(Some(Str(s)), [], [], []);
            Mentions(Dict(Some(Str("a")), [Str("b"), Other], [leaf("c")], [leaf("d"), Other])) == ["a", "b", "c", "d"]
  {
    var c, d := Dict(Some(Str("c")), [], [], []), Dict(Some(Str("d")), [], [], []);
    var schema := Dict(Some(Str("a")), [Str("b"), Other], [c], [d, Other]);
    assert Own(c) == ["c"] && Mentions(c) == ["c"];
    assert Own(d) == ["d"] && Mentions(d) == ["d"];
    assert schema.options[..1] == [Str("b")];
    assert Strings([Str("b")]) == ["b"] && Strings(schema.options) == ["b"];
    assert Own(schema) == ["a", "b"];
    assert schema.anyOf[..0] == [] && MentionsOf(schema, schema.anyOf) == ["c"];
    assert schema.oneOf[..1] == [d] && [d][..0] == [];
    assert MentionsOf(schema, [d]) == ["d"];
    assert MentionsOf(schema, schema.oneOf) == ["d"];
  }
}
