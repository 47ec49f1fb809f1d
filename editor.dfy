/** The factor editor: the list of factors the user builds before a design is
    generated, and a `generated` flag telling whether the current list has
    been turned into a design. Every edit returns a new list and clears the
    flag. Levels are edited as text, so a level may be NaN (`None` here)
    until the design is generated, which drops such levels.

    The two copies of the input tab share every rule; the background tab
    differs only in how it reads an edited level (`UpdateLevelBackground`). */
module FactorEditor {
  import opened Wrappers
  import opened Doe
  import opened Text
  import Lists
  import opened RunTable
  import Design

  /** A factor being edited; `None` is a NaN level, or a hole left by writing past the end. */
  datatype EditFactor = EditFactor(id: string, name: string, levels: seq<Option<real>>)

  datatype Editor = Editor(factors: seq<EditFactor>, generated: bool)

  /** The factor `addFactor` appends: `Factor <n + 1>` with levels 0 and 10. */
  function NewFactor(id: string, n: nat): (f: EditFactor)
    ensures f.levels == [Some(0.0), Some(10.0)]
  {
    EditFactor(id, "Factor " + NatToString(n + 1), [Some(0.0), Some(10.0)])
  }

  /** `addFactor`; `id` is the timestamp the source uses as a fresh id. */
  function AddFactor(e: Editor, id: string): (r: Editor)
    ensures |r.factors| == |e.factors| + 1 && r.factors[..|e.factors|] == e.factors
    ensures r.factors[|e.factors|] == NewFactor(id, |e.factors|) && !r.generated
  {
    Editor(e.factors + [NewFactor(id, |e.factors|)], false)
  }

  /** The factors whose id is not `id`, in their order. */
  function Without(factors: seq<EditFactor>, id: string): (r: seq<EditFactor>)
    ensures |r| <= |factors|
    ensures forall f :: f in r <==> f in factors && f.id != id
  {
    if |factors| == 0 then []
    else
      var rest := Without(factors[1..], id);
      assert forall f :: f in factors <==> f == factors[0] || f in factors[1..];
      if factors[0].id != id then [factors[0]] + rest else rest
  }

  /** The filter keeps the factors' order: filtering a concatenation
      concatenates the filtered parts, and a single factor is kept exactly
      when its id differs. */
  lemma {:induction false} WithoutConcat(a: seq<EditFactor>, b: seq<EditFactor>, id: string)
    ensures Without(a + b, id) == Without(a, id) + Without(b, id)
    ensures |a| == 1 ==> Without(a, id) == (if a[0].id != id then a else [])
  {
    if |a| == 0 {
      assert a + b == b;
    } else {
      WithoutConcat(a[1..], b, id);
      Lists.ConcatAssoc([a[0]], a[1..], b);
      assert [a[0]] + a[1..] == a;
      WithoutCons(a[0], a[1..] + b, id);
      WithoutCons(a[0], a[1..], id);
      Lists.ConcatAssoc(Kept(a[0], id), Without(a[1..], id), Without(b, id));
      if |a| == 1 {
        assert a[1..] == [];
      }
    }
  }

  /** The factor as the filter keeps it: itself when its id differs, nothing otherwise. */
  function Kept(f: EditFactor, id: string): seq<EditFactor>
  {
    if f.id != id then [f] else []
  }

  /** One step of the filter, from the front. */
  lemma WithoutCons(f: EditFactor, rest: seq<EditFactor>, id: string)
    ensures Without([f] + rest, id) == Kept(f, id) + Without(rest, id)
  {
    assert ([f] + rest)[0] == f && ([f] + rest)[1..] == rest;
  }

  /** `removeFactor`. */
  function RemoveFactor(e: Editor, id: string): (r: Editor)
    ensures !r.generated
    ensures forall f :: f in r.factors <==> f in e.factors && f.id != id
  {
    Editor(Without(e.factors, id), false)
  }

  /** Removal keeps the remaining factors in their order: removing from a
      list split in two gives the two parts with the id removed, one after
      the other. */
  lemma RemoveFactorKeepsOrder(e: Editor, a: seq<EditFactor>, b: seq<EditFactor>, id: string)
    requires e.factors == a + b
    ensures RemoveFactor(e, id).factors == Without(a, id) + Without(b, id)
  {
    WithoutConcat(a, b, id);
  }

  /** Removal keeps the remaining factors' order: a list without the id is left as it is. */
  lemma {:induction false} WithoutKeeps(factors: seq<EditFactor>, id: string)
    requires forall i :: 0 <= i < |factors| ==> factors[i].id != id
    ensures Without(factors, id) == factors
  {
    if |factors| > 0 {
      WithoutKeeps(factors[1..], id);
    }
  }

  /** Removing a factor just added gives back the list it was added to, when its id was fresh. */
  lemma RemoveUndoesAdd(e: Editor, id: string)
    requires forall i :: 0 <= i < |e.factors| ==> e.factors[i].id != id
    ensures RemoveFactor(AddFactor(e, id), id) == e.(generated := false)
  {
    var fs := e.factors + [NewFactor(id, |e.factors|)];
    WithoutAppend(e.factors, NewFactor(id, |e.factors|), id);
    WithoutKeeps(e.factors, id);
  }

  lemma {:induction false} WithoutAppend(factors: seq<EditFactor>, f: EditFactor, id: string)
    requires f.id == id
    ensures Without(factors + [f], id) == Without(factors, id)
  {
    if |factors| == 0 {
      assert factors + [f] == [f];
      assert [f][1..] == [];
    } else {
      assert (factors + [f])[1..] == factors[1..] + [f];
      WithoutAppend(factors[1..], f, id);
    }
  }

  /** Removing twice is removing once. */
  lemma {:induction false} RemoveIdempotent(factors: seq<EditFactor>, id: string)
    ensures Without(Without(factors, id), id) == Without(factors, id)
  {
    if |factors| > 0 {
      RemoveIdempotent(factors[1..], id);
    }
  }

  /** `updateFactorName`: the factors with that id get the new name, nothing else changes. */
  function Rename(e: Editor, id: string, name: string): (r: Editor)
    ensures |r.factors| == |e.factors| && !r.generated
    ensures forall i :: 0 <= i < |e.factors| ==>
      r.factors[i] == (if e.factors[i].id == id then e.factors[i].(name := name) else e.factors[i])
  {
    Editor(seq(|e.factors|, i requires 0 <= i < |e.factors| =>
      if e.factors[i].id == id then e.factors[i].(name := name) else e.factors[i]), false)
  }

  /** The last rename wins. */
  lemma RenameTwice(e: Editor, id: string, a: string, b: string)
    ensures Rename(Rename(e, id, a), id, b) == Rename(e, id, b)
  {
  }

  /** `newLevels[index] = v` on a copied array: past the end the array grows,
      the positions in between being holes. */
  function WriteLevel(levels: seq<Option<real>>, index: nat, v: Option<real>): (r: seq<Option<real>>)
    ensures |r| == if index < |levels| then |levels| else index + 1
    ensures r[index] == v
    ensures forall k :: 0 <= k < |r| && k != index ==> r[k] == (if k < |levels| then levels[k] else None)
  {
    if index < |levels| then levels[index := v]
    else levels + seq(index - |levels|, _ => None) + [v]
  }

  /** The write applied to the factors with that id. */
  function WriteFactorLevel(e: Editor, id: string, index: nat, v: Option<real>): (r: Editor)
    ensures |r.factors| == |e.factors| && !r.generated
    ensures forall i :: 0 <= i < |e.factors| ==>
      r.factors[i] == (if e.factors[i].id == id then e.factors[i].(levels := WriteLevel(e.factors[i].levels, index, v)) else e.factors[i])
  {
    Editor(seq(|e.factors|, i requires 0 <= i < |e.factors| =>
      if e.factors[i].id == id then e.factors[i].(levels := WriteLevel(e.factors[i].levels, index, v)) else e.factors[i]), false)
  }

  /** `updateFactorLevel` of the input tab: a number is written, empty text
      writes NaN, and any other text leaves the levels as they are. */
  function UpdateLevel(parse: string -> Option<real>, e: Editor, id: string, index: nat, text: string): (r: Editor)
    ensures !r.generated && |r.factors| == |e.factors|
    ensures forall i :: 0 <= i < |e.factors| ==>
      r.factors[i].id == e.factors[i].id && r.factors[i].name == e.factors[i].name &&
      (e.factors[i].id != id ==> r.factors[i] == e.factors[i])
  {
    var v := ParseFloat(parse, text);
    if v.Some? || text == "" then WriteFactorLevel(e, id, index, v)
    else Editor(e.factors, false)
  }

  /** `updateFactorLevel` of the background tab: empty text leaves the
      levels as they are, and any other text is written, a non-number as
      NaN. */
  function UpdateLevelBackground(parse: string -> Option<real>, e: Editor, id: string, index: nat, text: string): (r: Editor)
    ensures !r.generated && |r.factors| == |e.factors|
    ensures forall i :: 0 <= i < |e.factors| ==>
      r.factors[i].id == e.factors[i].id && r.factors[i].name == e.factors[i].name &&
      (e.factors[i].id != id ==> r.factors[i] == e.factors[i])
  {
    var v := ParseFloat(parse, text);
    if v.None? && text == "" then e.(generated := false)
    else WriteFactorLevel(e, id, index, v)
  }

  /** The input tab's rule, case by case. */
  lemma UpdateLevelCases(parse: string -> Option<real>, e: Editor, id: string, index: nat, text: string)
    ensures !UpdateLevel(parse, e, id, index, text).generated
    ensures text == "" ==> UpdateLevel(parse, e, id, index, text) == WriteFactorLevel(e, id, index, None)
    ensures text != "" && ParseFloat(parse, text).Some? ==>
      UpdateLevel(parse, e, id, index, text) == WriteFactorLevel(e, id, index, ParseFloat(parse, text))
    ensures text != "" && ParseFloat(parse, text).None? ==>
      UpdateLevel(parse, e, id, index, text).factors == e.factors
  {
  }

  /** The background tab's rule, case by case. */
  lemma UpdateLevelBackgroundCases(parse: string -> Option<real>, e: Editor, id: string, index: nat, text: string)
    ensures !UpdateLevelBackground(parse, e, id, index, text).generated
    ensures text == "" ==> UpdateLevelBackground(parse, e, id, index, text).factors == e.factors
    ensures text != "" ==>
      UpdateLevelBackground(parse, e, id, index, text) == WriteFactorLevel(e, id, index, ParseFloat(parse, text))
  {
  }

  /** The two rules are opposite on empty and on blank or non-numeric text
      and agree on numbers. */
  lemma LevelRulesDiffer(parse: string -> Option<real>, e: Editor, id: string, index: nat, text: string)
    ensures text == "" ==> UpdateLevel(parse, e, id, index, text) == WriteFactorLevel(e, id, index, None) &&
                           UpdateLevelBackground(parse, e, id, index, text).factors == e.factors
    ensures text != "" && ParseFloat(parse, text).None? ==>
      UpdateLevel(parse, e, id, index, text).factors == e.factors &&
      UpdateLevelBackground(parse, e, id, index, text) == WriteFactorLevel(e, id, index, None)
    ensures ParseFloat(parse, text).Some? ==>
      UpdateLevel(parse, e, id, index, text) == UpdateLevelBackground(parse, e, id, index, text)
  {
  }

  /** `addLevelToFactor`: a level 0 is appended to the factors with that id while they have fewer than 4. */
  function AddLevel(e: Editor, id: string): (r: Editor)
    ensures |r.factors| == |e.factors| && !r.generated
    ensures forall i :: 0 <= i < |e.factors| ==>
      r.factors[i] == (if e.factors[i].id == id && |e.factors[i].levels| < 4 then e.factors[i].(levels := e.factors[i].levels + [Some(0.0)]) else e.factors[i])
  {
    Editor(seq(|e.factors|, i requires 0 <= i < |e.factors| =>
      var f := e.factors[i];
      if f.id == id && |f.levels| < 4 then f.(levels := f.levels + [Some(0.0)]) else f), false)
  }

  /** `removeLevelFromFactor`: the last level of the factors with that id goes while they have more than 2. */
  function RemoveLevel(e: Editor, id: string): (r: Editor)
    ensures |r.factors| == |e.factors| && !r.generated
    ensures forall i :: 0 <= i < |e.factors| ==>
      r.factors[i] == (if e.factors[i].id == id && |e.factors[i].levels| > 2 then e.factors[i].(levels := e.factors[i].levels[..|e.factors[i].levels| - 1]) else e.factors[i])
  {
    Editor(seq(|e.factors|, i requires 0 <= i < |e.factors| =>
      var f := e.factors[i];
      if f.id == id && |f.levels| > 2 then f.(levels := f.levels[..|f.levels| - 1]) else f), false)
  }

  /** Every factor has between 2 and 4 levels. */
  predicate LevelCountsInRange(e: Editor) {
    forall i :: 0 <= i < |e.factors| ==> 2 <= |e.factors[i].levels| <= 4
  }

  /** Adding, removing and renaming factors keep each factor's level count between 2 and 4. */
  lemma FactorEditsKeepLevelCounts(e: Editor, id: string, newId: string, name: string)
    requires LevelCountsInRange(e)
    ensures LevelCountsInRange(AddFactor(e, newId))
    ensures LevelCountsInRange(RemoveFactor(e, id))
    ensures LevelCountsInRange(Rename(e, id, name))
  {
    var r := RemoveFactor(e, id);
    forall i | 0 <= i < |r.factors| ensures 2 <= |r.factors[i].levels| <= 4 {
      assert r.factors[i] in r.factors;
      var j :| 0 <= j < |e.factors| && e.factors[j] == r.factors[i];
    }
    var a := AddFactor(e, newId);
    forall i | 0 <= i < |a.factors| ensures 2 <= |a.factors[i].levels| <= 4 {
      if i < |e.factors| {
        assert a.factors[i] == a.factors[..|e.factors|][i];
      }
    }
  }

  /** Adding and removing levels keep each factor's level count between 2 and 4. */
  lemma LevelEditsKeepLevelCounts(e: Editor, id: string)
    requires LevelCountsInRange(e)
    ensures LevelCountsInRange(AddLevel(e, id))
    ensures LevelCountsInRange(RemoveLevel(e, id))
  {
  }

  /** Editing an existing level keeps the level count; writing past the last level grows it. */
  lemma UpdateKeepsLevelCounts(parse: string -> Option<real>, e: Editor, id: string, index: nat, text: string)
    requires forall i :: 0 <= i < |e.factors| && e.factors[i].id == id ==> index < |e.factors[i].levels|
    ensures forall i :: 0 <= i < |e.factors| ==>
      |UpdateLevel(parse, e, id, index, text).factors[i].levels| == |e.factors[i].levels| &&
      |UpdateLevelBackground(parse, e, id, index, text).factors[i].levels| == |e.factors[i].levels|
  {
  }

  /** A write past the last level leaves holes, which generating drops. */
  lemma WritePastEnd(levels: seq<Option<real>>, index: nat, v: real)
    requires index > |levels|
    ensures |WriteLevel(levels, index, Some(v))| == index + 1
    ensures WriteLevel(levels, index, Some(v))[|levels|] == None
    ensures Numeric(WriteLevel(levels, index, Some(v))) == Numeric(levels) + [v]
  {
    var w := WriteLevel(levels, index, Some(v));
    NumericAppend(levels + seq(index - |levels|, _ => None), Some(v));
    NumericHoles(levels, index - |levels|);
    assert w == levels + seq(index - |levels|, _ => None) + [Some(v)];
  }

  lemma {:induction false} NumericAppend(levels: seq<Option<real>>, o: Option<real>)
    ensures Numeric(levels + [o]) == Numeric(levels) + (if o.Some? then [o.value] else [])
  {
    if |levels| == 0 {
      assert levels + [o] == [o];
      assert [o][1..] == [];
    } else {
      assert (levels + [o])[1..] == levels[1..] + [o];
      NumericAppend(levels[1..], o);
    }
  }

  lemma {:induction false} NumericHoles(levels: seq<Option<real>>, n: nat)
    ensures Numeric(levels + seq(n, _ => None)) == Numeric(levels)
  {
    if n > 0 {
      var holes := seq(n, _ => None);
      assert levels + holes == (levels + seq(n - 1, _ => None)) + [None];
      NumericAppend(levels + seq(n - 1, _ => None), None);
      NumericHoles(levels, n - 1);
    } else {
      assert levels + seq(n, _ => None) == levels;
    }
  }

  /** Adding a level and removing one again gives back the list, for a
      factor with 2 or 3 levels. */
  lemma RemoveLevelUndoesAdd(e: Editor, id: string)
    requires forall i :: 0 <= i < |e.factors| && e.factors[i].id == id ==> 2 <= |e.factors[i].levels| < 4
    ensures RemoveLevel(AddLevel(e, id), id) == e.(generated := false)
  {
    var r := RemoveLevel(AddLevel(e, id), id);
    forall i | 0 <= i < |e.factors| ensures r.factors[i] == e.factors[i] {
      var f := e.factors[i];
      if f.id == id {
        assert (f.levels + [Some(0.0)])[..|f.levels|] == f.levels;
      }
    }
  }

  /** The numeric levels, in their order (`levels.filter(l => !isNaN(l))`). */
  function Numeric(levels: seq<Option<real>>): (r: seq<real>)
    ensures |r| <= |levels|
    ensures forall x :: x in r <==> Some(x) in levels
  {
    if |levels| == 0 then []
    else
      var rest := Numeric(levels[1..]);
      assert forall o :: o in levels <==> o == levels[0] || o in levels[1..];
      if levels[0].Some? then [levels[0].value] + rest else rest
  }

  /** The factor `handleGenerate` passes on. */
  function Clean(f: EditFactor): Factor
  {
    Factor(f.id, f.name, Numeric(f.levels))
  }

  /** `handleGenerate`: the cleaned factors go to the design generator and the flag is set. */
  function Generate(e: Editor): (r: (Editor, seq<Factor>))
    ensures r.0 == e.(generated := true)
    ensures |r.1| == |e.factors|
    ensures forall i :: 0 <= i < |e.factors| ==> r.1[i].id == e.factors[i].id && r.1[i].name == e.factors[i].name
    ensures forall i :: 0 <= i < |e.factors| ==> forall x :: x in r.1[i].levels <==> Some(x) in e.factors[i].levels
    ensures forall i :: 0 <= i < |e.factors| ==> r.1[i].levels == Numeric(e.factors[i].levels)
  {
    (e.(generated := true), seq(|e.factors|, i requires 0 <= i < |e.factors| => Clean(e.factors[i])))
  }

  /** Without NaN levels, cleaning keeps the levels as they are. */
  lemma {:induction false} NumericKeeps(levels: seq<Option<real>>)
    requires forall k :: 0 <= k < |levels| ==> levels[k].Some?
    ensures |Numeric(levels)| == |levels|
    ensures forall k :: 0 <= k < |levels| ==> Numeric(levels)[k] == levels[k].value
  {
    if |levels| > 0 {
      NumericKeeps(levels[1..]);
    }
  }

  /** Cleaning twice is cleaning once. */
  lemma NumericOfNumeric(levels: seq<Option<real>>)
    ensures var once := Numeric(levels);
      Numeric(seq(|once|, k requires 0 <= k < |once| => Some(once[k]))) == once
  {
    var once := Numeric(levels);
    var again := seq(|once|, k requires 0 <= k < |once| => Some(once[k]));
    NumericKeeps(again);
  }

  /** The preview `factors.reduce((acc, f) => acc * f.levels.length, 1)`. */
  function PreviewCount(factors: seq<EditFactor>): (r: nat)
    ensures r == 0 <==> exists i :: 0 <= i < |factors| && |factors[i].levels| == 0
  {
    if |factors| == 0 then 1 else |factors[0].levels| * PreviewCount(factors[1..])
  }

  /** The preview promises as many runs as the generated design has when no
      level is NaN and the list is not empty; an empty list previews 1 run
      but generates none. */
  lemma PreviewMatchesDesign(e: Editor)
    requires forall i, k :: 0 <= i < |e.factors| && 0 <= k < |e.factors[i].levels| ==> e.factors[i].levels[k].Some?
    ensures var clean := Generate(e).1;
      |Design.FullFactorial(clean)| == (if |e.factors| == 0 then 0 else PreviewCount(e.factors))
  {
    var clean := Generate(e).1;
    if |e.factors| > 0 {
      CountOfClean(e.factors, clean);
      Design.ProductLength(Design.LevelLists(clean));
      Design.ProductShapes(Design.LevelLists(clean));
    }
  }

  lemma {:induction false} CountOfClean(factors: seq<EditFactor>, clean: seq<Factor>)
    requires |clean| == |factors|
    requires forall i :: 0 <= i < |factors| ==> clean[i] == Clean(factors[i])
    requires forall i, k :: 0 <= i < |factors| && 0 <= k < |factors[i].levels| ==> factors[i].levels[k].Some?
    ensures Design.Count(Design.LevelLists(clean)) == PreviewCount(factors)
  {
    if |factors| > 0 {
      NumericKeeps(factors[0].levels);
      CountOfClean(factors[1..], clean[1..]);
      assert Design.LevelLists(clean)[1..] == Design.LevelLists(clean[1..]);
    }
  }
}
