/** How a flow learns a flowlet's inputs and outputs: `FlowletDefinition.inspectFlowlet`
    walks the flowlet's class hierarchy, most derived class first, and reads the
    `OutputEmitter` fields and the process methods declared at each level.
    Reflection is replaced by a description of each class level. */
module FlowletInspection {
  import opened Wrappers

  /** The raw type of a value, reduced to the one distinction the flow cares about. */
  datatype TypeRef = StreamEvent | OtherType(className: string)

  /** A declared field. `typeArgument` is the first type argument of an
      `OutputEmitter<T>`; `None` when the field's generic type is not parameterized. */
  datatype FieldDecl = FieldDecl(isOutputEmitter: bool, dataSet: Option<string>, typeArgument: Option<TypeRef>)

  /** A declared method. `process` is the value of its `@Process` annotation, if any;
      `params` are its parameter types, already resolved against the class level. */
  datatype MethodDecl = MethodDecl(name: string, process: Option<seq<string>>, params: seq<TypeRef>)

  /** The fields and methods one class of the hierarchy declares itself. */
  datatype ClassLevel = ClassLevel(fields: seq<FieldDecl>, methods: seq<MethodDecl>)

  /** Both failures are `IllegalArgumentException`s raised by `Preconditions.checkArgument`. */
  datatype InspectError = MissingEmitterType | MissingProcessParameter

  datatype Inspection = Inspection(inputs: map<string, TypeRef>, outputs: map<string, TypeRef>)

  const ProcessMethodPrefix: string := "process"
  const DefaultOutput: string := "out"
  const AnyInput: string := ""

  const NoInspection := Inspection(map[], map[])

  predicate IsProcessMethod(m: MethodDecl) {
    ProcessMethodPrefix <= m.name || m.process.Some?
  }

  /** The output a field declares: its `@DataSet` value, else "out". */
  function OutputName(f: FieldDecl): string {
    if f.dataSet.Some? then f.dataSet.value else DefaultOutput
  }

  /** The input names a process method is registered under. */
  function InputNames(m: MethodDecl): seq<string> {
    if m.process.None? || m.process.value == [] then [AnyInput] else m.process.value
  }

  /** The checks inspection makes on a single field and a single method. */
  predicate FieldIsTyped(f: FieldDecl) {
    f.isOutputEmitter ==> f.typeArgument.Some?
  }

  predicate MethodHasParameter(m: MethodDecl) {
    IsProcessMethod(m) ==> |m.params| > 0
  }

  /** Field `fs[i]` is an output emitter named `k`. */
  predicate EmitsAt(fs: seq<FieldDecl>, i: int, k: string) {
    0 <= i < |fs| && fs[i].isOutputEmitter && OutputName(fs[i]) == k
  }

  /** Method `ms[i]` is a process method registered under input name `k`. */
  predicate ReadsAt(ms: seq<MethodDecl>, i: int, k: string) {
    0 <= i < |ms| && IsProcessMethod(ms[i]) && k in InputNames(ms[i])
  }

  // ----- one field: outputs keep the first entry for a name -----

  function AddOutput(outs: map<string, TypeRef>, f: FieldDecl): Result<map<string, TypeRef>, InspectError> {
    if !f.isOutputEmitter then Ok(outs)
    else if f.typeArgument.None? then Err(MissingEmitterType)
    else if OutputName(f) in outs then Ok(outs)
    else Ok(outs[OutputName(f) := f.typeArgument.value])
  }

  /** The fields loop of one class level, as a left fold that stops at the first error. */
  function CollectOutputs(outs: map<string, TypeRef>, fs: seq<FieldDecl>): Result<map<string, TypeRef>, InspectError>
    decreases |fs|
  {
    if fs == [] then Ok(outs)
    else
      match CollectOutputs(outs, fs[..|fs| - 1])
      case Err(e) => Err(e)
      case Ok(m) => AddOutput(m, fs[|fs| - 1])
  }

  // ----- one method: inputs take the last write for a name -----

  /** `put(name, t)` for every name, in order. */
  function PutAll(ins: map<string, TypeRef>, names: seq<string>, t: TypeRef): (r: map<string, TypeRef>)
    ensures r.Keys == ins.Keys + set n | n in names
    ensures forall n :: n in names ==> r[n] == t
    ensures forall k :: k in ins && k !in names ==> r[k] == ins[k]
    decreases |names|
  {
    if names == [] then ins
    else PutAll(ins, names[..|names| - 1], t)[names[|names| - 1] := t]
  }

  function AddInput(ins: map<string, TypeRef>, m: MethodDecl): Result<map<string, TypeRef>, InspectError> {
    if !IsProcessMethod(m) then Ok(ins)
    else if |m.params| == 0 then Err(MissingProcessParameter)
    else Ok(PutAll(ins, InputNames(m), m.params[0]))
  }

  /** The methods loop of one class level. */
  function CollectInputs(ins: map<string, TypeRef>, ms: seq<MethodDecl>): Result<map<string, TypeRef>, InspectError>
    decreases |ms|
  {
    if ms == [] then Ok(ins)
    else
      match CollectInputs(ins, ms[..|ms| - 1])
      case Err(e) => Err(e)
      case Ok(m) => AddInput(m, ms[|ms| - 1])
  }

  // ----- the hierarchy walk -----

  /** One class level: its fields first, then its methods. */
  function InspectLevel(acc: Inspection, level: ClassLevel): Result<Inspection, InspectError> {
    match CollectOutputs(acc.outputs, level.fields)
    case Err(e) => Err(e)
    case Ok(outs) =>
      match CollectInputs(acc.inputs, level.methods)
      case Err(e) => Err(e)
      case Ok(ins) => Ok(Inspection(ins, outs))
  }

  function InspectLevels(acc: Inspection, levels: seq<ClassLevel>): Result<Inspection, InspectError>
    decreases |levels|
  {
    if levels == [] then Ok(acc)
    else
      match InspectLevels(acc, levels[..|levels| - 1])
      case Err(e) => Err(e)
      case Ok(x) => InspectLevel(x, levels[|levels| - 1])
  }

  /** What `inspectFlowlet` leaves in the two (initially empty) maps, or the error it raises. */
  function Inspect(levels: seq<ClassLevel>): Result<Inspection, InspectError> {
    InspectLevels(NoInspection, levels)
  }

  /** Every field of the hierarchy, most derived class first. */
  function AllFields(levels: seq<ClassLevel>): seq<FieldDecl>
    decreases |levels|
  {
    if levels == [] then [] else AllFields(levels[..|levels| - 1]) + levels[|levels| - 1].fields
  }

  /** Every method of the hierarchy, most derived class first. */
  function AllMethods(levels: seq<ClassLevel>): seq<MethodDecl>
    decreases |levels|
  {
    if levels == [] then [] else AllMethods(levels[..|levels| - 1]) + levels[|levels| - 1].methods
  }

  // ----- the loops of inspectFlowlet -----

  /** `inspectFlowlet`: walks the hierarchy and fills the inputs and outputs maps in place. */
  method InspectFlowlet(levels: seq<ClassLevel>) returns (r: Result<Inspection, InspectError>)
    ensures r == Inspect(levels)
  {
    var inputs: map<string, TypeRef> := map[];
    var outputs: map<string, TypeRef> := map[];
    for i := 0 to |levels|
      invariant InspectLevels(NoInspection, levels[..i]) == Ok(Inspection(inputs, outputs))
    {
      assert levels[..i + 1][..i] == levels[..i];
      var fieldsDone := ScanFields(outputs, levels[i].fields);
      if fieldsDone.Err? {
        InspectLevelsPrefixError(NoInspection, levels, i + 1);
        return Err(fieldsDone.error);
      }
      var methodsDone := ScanMethods(inputs, levels[i].methods);
      if methodsDone.Err? {
        InspectLevelsPrefixError(NoInspection, levels, i + 1);
        return Err(methodsDone.error);
      }
      inputs, outputs := methodsDone.value, fieldsDone.value;
    }
    assert levels[..|levels|] == levels;
    return Ok(Inspection(inputs, outputs));
  }

  /** The loop over one level's declared fields: records each `OutputEmitter` unless
      its output name is already taken. */
  method ScanFields(outs0: map<string, TypeRef>, fields: seq<FieldDecl>) returns (r: Result<map<string, TypeRef>, InspectError>)
    ensures r == CollectOutputs(outs0, fields)
  {
    var outputs := outs0;
    for j := 0 to |fields|
      invariant CollectOutputs(outs0, fields[..j]) == Ok(outputs)
    {
      var field := fields[j];
      assert fields[..j + 1][..j] == fields[..j];
      if !field.isOutputEmitter {
        continue;
      }
      if field.typeArgument.None? {
        CollectOutputsPrefixError(outs0, fields, j + 1);
        return Err(MissingEmitterType);
      }
      var outputName := if field.dataSet.Some? then field.dataSet.value else DefaultOutput;
      if outputName !in outputs {
        outputs := outputs[outputName := field.typeArgument.value];
      }
    }
    assert fields[..|fields|] == fields;
    return Ok(outputs);
  }

  /** The loop over one level's declared methods: registers each process method's
      first parameter type under its input names, overwriting earlier entries. */
  method ScanMethods(ins0: map<string, TypeRef>, methods: seq<MethodDecl>) returns (r: Result<map<string, TypeRef>, InspectError>)
    ensures r == CollectInputs(ins0, methods)
  {
    var inputs := ins0;
    for j := 0 to |methods|
      invariant CollectInputs(ins0, methods[..j]) == Ok(inputs)
    {
      var m := methods[j];
      assert methods[..j + 1][..j] == methods[..j];
      if !(ProcessMethodPrefix <= m.name) && m.process.None? {
        continue;
      }
      if |m.params| == 0 {
        CollectInputsPrefixError(ins0, methods, j + 1);
        return Err(MissingProcessParameter);
      }
      var inputType := m.params[0];
      if m.process.None? || m.process.value == [] {
        assert PutAll(inputs, [AnyInput], inputType) == PutAll(inputs, [], inputType)[AnyInput := inputType];
        inputs := inputs[AnyInput := inputType];
      } else {
        var names := m.process.value;
        ghost var before := inputs;
        for k := 0 to |names|
          invariant inputs == PutAll(before, names[..k], inputType)
        {
          assert names[..k + 1][..k] == names[..k];
          inputs := inputs[names[k] := inputType];
        }
        assert names[..|names|] == names;
      }
    }
    assert methods[..|methods|] == methods;
    return Ok(inputs);
  }

  // ----- an error on a prefix is the error of the whole walk -----

  lemma {:induction false} CollectOutputsPrefixError(outs: map<string, TypeRef>, fs: seq<FieldDecl>, n: nat)
    requires n <= |fs| && CollectOutputs(outs, fs[..n]).Err?
    ensures CollectOutputs(outs, fs) == CollectOutputs(outs, fs[..n])
    decreases |fs|
  {
    if n < |fs| {
      assert fs[..|fs| - 1][..n] == fs[..n];
      CollectOutputsPrefixError(outs, fs[..|fs| - 1], n);
    } else {
      assert fs[..n] == fs;
    }
  }

  lemma {:induction false} CollectInputsPrefixError(ins: map<string, TypeRef>, ms: seq<MethodDecl>, n: nat)
    requires n <= |ms| && CollectInputs(ins, ms[..n]).Err?
    ensures CollectInputs(ins, ms) == CollectInputs(ins, ms[..n])
    decreases |ms|
  {
    if n < |ms| {
      assert ms[..|ms| - 1][..n] == ms[..n];
      CollectInputsPrefixError(ins, ms[..|ms| - 1], n);
    } else {
      assert ms[..n] == ms;
    }
  }

  lemma {:induction false} InspectLevelsPrefixError(acc: Inspection, levels: seq<ClassLevel>, n: nat)
    requires n <= |levels| && InspectLevels(acc, levels[..n]).Err?
    ensures InspectLevels(acc, levels) == InspectLevels(acc, levels[..n])
    decreases |levels|
  {
    if n < |levels| {
      assert levels[..|levels| - 1][..n] == levels[..n];
      InspectLevelsPrefixError(acc, levels[..|levels| - 1], n);
    } else {
      assert levels[..n] == levels;
    }
  }
}

module FlowletInspectionFacts {
  import opened Wrappers
  import opened FlowletInspection

  // ----- which hierarchies inspect without an error -----

  lemma {:induction false} CollectOutputsSucceeds(outs: map<string, TypeRef>, fs: seq<FieldDecl>)
    ensures CollectOutputs(outs, fs).Ok? <==> forall i :: 0 <= i < |fs| ==> FieldIsTyped(fs[i])
    decreases |fs|
  {
    if fs != [] {
      var init := fs[..|fs| - 1];
      CollectOutputsSucceeds(outs, init);
      assert forall i :: 0 <= i < |init| ==> init[i] == fs[i];
    }
  }

  lemma {:induction false} CollectInputsSucceeds(ins: map<string, TypeRef>, ms: seq<MethodDecl>)
    ensures CollectInputs(ins, ms).Ok? <==> forall i :: 0 <= i < |ms| ==> MethodHasParameter(ms[i])
    decreases |ms|
  {
    if ms != [] {
      var init := ms[..|ms| - 1];
      CollectInputsSucceeds(ins, init);
      assert forall i :: 0 <= i < |init| ==> init[i] == ms[i];
    }
  }

  // ----- outputs: the first emitter declaring a name wins -----

  lemma {:induction false} CollectOutputsFirstWins(outs: map<string, TypeRef>, fs: seq<FieldDecl>)
    requires CollectOutputs(outs, fs).Ok?
    ensures var r := CollectOutputs(outs, fs).value;
      && (forall k :: k in r <==> k in outs || exists i :: EmitsAt(fs, i, k))
      && (forall k :: k in outs ==> r[k] == outs[k])
      && (forall i, k :: EmitsAt(fs, i, k) && k !in outs && (forall j :: 0 <= j < i ==> !EmitsAt(fs, j, k)) ==>
            fs[i].typeArgument == Some(r[k]))
    decreases |fs|
  {
    if fs != [] {
      var init, f := fs[..|fs| - 1], fs[|fs| - 1];
      CollectOutputsFirstWins(outs, init);
      assert forall j, k :: 0 <= j < |init| ==> (EmitsAt(init, j, k) <==> EmitsAt(fs, j, k));
      var r := CollectOutputs(outs, fs).value;
      forall k | exists i :: EmitsAt(fs, i, k)
        ensures k in r
      {
        var i :| EmitsAt(fs, i, k);
        if i < |init| {
          assert EmitsAt(init, i, k);
        }
      }
      forall k | k in r && k !in outs
        ensures exists i :: EmitsAt(fs, i, k)
      {
        if !exists i :: EmitsAt(init, i, k) {
          assert EmitsAt(fs, |fs| - 1, k);
        } else {
          var i :| EmitsAt(init, i, k);
          assert EmitsAt(fs, i, k);
        }
      }
    }
  }

  // ----- inputs: the last process method registering a name wins -----

  lemma {:induction false} CollectInputsKeys(ins: map<string, TypeRef>, ms: seq<MethodDecl>)
    requires CollectInputs(ins, ms).Ok?
    ensures forall k :: k in CollectInputs(ins, ms).value <==> k in ins || exists i :: ReadsAt(ms, i, k)
    decreases |ms|
  {
    if ms != [] {
      var init, last := ms[..|ms| - 1], ms[|ms| - 1];
      CollectInputsKeys(ins, init);
      var r := CollectInputs(ins, ms).value;
      forall k | exists i :: ReadsAt(ms, i, k)
        ensures k in r
      {
        var i :| ReadsAt(ms, i, k);
        if i < |init| {
          assert ReadsAt(init, i, k);
        }
      }
      forall k | k in r && k !in ins
        ensures exists i :: ReadsAt(ms, i, k)
      {
        if exists i :: ReadsAt(init, i, k) {
          var i :| ReadsAt(init, i, k);
          assert ReadsAt(ms, i, k);
        } else {
          assert ReadsAt(ms, |ms| - 1, k);
        }
      }
    }
  }

  lemma {:induction false} CollectInputsLastWins(ins: map<string, TypeRef>, ms: seq<MethodDecl>)
    requires CollectInputs(ins, ms).Ok?
    ensures var r := CollectInputs(ins, ms).value;
      && (forall k :: k in ins && (forall i :: !ReadsAt(ms, i, k)) ==> k in r && r[k] == ins[k])
      && (forall i, k :: ReadsAt(ms, i, k) && (forall j :: i < j ==> !ReadsAt(ms, j, k)) ==>
            |ms[i].params| > 0 && k in r && r[k] == ms[i].params[0])
    decreases |ms|
  {
    if ms != [] {
      var init, last := ms[..|ms| - 1], ms[|ms| - 1];
      CollectInputsLastWins(ins, init);
      CollectInputsKeys(ins, init);
      var m := CollectInputs(ins, init).value;
      var r := CollectInputs(ins, ms).value;
      assert CollectInputs(ins, ms) == AddInput(m, last);
      forall k | k in ins && (forall i :: !ReadsAt(ms, i, k))
        ensures k in r && r[k] == ins[k]
      {
        forall i | 0 <= i < |init| ensures !ReadsAt(init, i, k) {
          assert !ReadsAt(ms, i, k);
        }
        assert !ReadsAt(ms, |ms| - 1, k);
      }
      forall i, k | ReadsAt(ms, i, k) && (forall j :: i < j ==> !ReadsAt(ms, j, k))
        ensures |ms[i].params| > 0 && k in r && r[k] == ms[i].params[0]
      {
        if i < |init| {
          assert ReadsAt(init, i, k);
          forall j | i < j ensures !ReadsAt(init, j, k) {
            assert !ReadsAt(ms, j, k);
          }
          assert !ReadsAt(ms, |ms| - 1, k);
        }
      }
    }
  }

  // ----- the walk over levels is one walk over all fields and one over all methods -----

  lemma {:induction false} CollectOutputsAppend(outs: map<string, TypeRef>, a: seq<FieldDecl>, b: seq<FieldDecl>)
    ensures CollectOutputs(outs, a + b) ==
      match CollectOutputs(outs, a)
      case Err(e) => Err(e)
      case Ok(m) => CollectOutputs(m, b)
    decreases |b|
  {
    if b == [] {
      assert a + b == a;
    } else {
      assert (a + b)[..|a + b| - 1] == a + b[..|b| - 1];
      CollectOutputsAppend(outs, a, b[..|b| - 1]);
    }
  }

  lemma {:induction false} CollectInputsAppend(ins: map<string, TypeRef>, a: seq<MethodDecl>, b: seq<MethodDecl>)
    ensures CollectInputs(ins, a + b) ==
      match CollectInputs(ins, a)
      case Err(e) => Err(e)
      case Ok(m) => CollectInputs(m, b)
    decreases |b|
  {
    if b == [] {
      assert a + b == a;
    } else {
      assert (a + b)[..|a + b| - 1] == a + b[..|b| - 1];
      CollectInputsAppend(ins, a, b[..|b| - 1]);
    }
  }

  lemma {:induction false} InspectLevelsFlatten(acc: Inspection, levels: seq<ClassLevel>)
    ensures InspectLevels(acc, levels).Ok? <==>
      CollectOutputs(acc.outputs, AllFields(levels)).Ok? && CollectInputs(acc.inputs, AllMethods(levels)).Ok?
    ensures InspectLevels(acc, levels).Ok? ==>
      InspectLevels(acc, levels).value ==
        Inspection(CollectInputs(acc.inputs, AllMethods(levels)).value, CollectOutputs(acc.outputs, AllFields(levels)).value)
    decreases |levels|
  {
    if levels != [] {
      var init, l := levels[..|levels| - 1], levels[|levels| - 1];
      InspectLevelsFlatten(acc, init);
      CollectOutputsAppend(acc.outputs, AllFields(init), l.fields);
      CollectInputsAppend(acc.inputs, AllMethods(init), l.methods);
    }
  }

  // ----- what inspectFlowlet computes for a whole flowlet class -----

  /** Inspection fails exactly when some output emitter lacks its type argument or
      some process method has no parameter, at any level of the hierarchy. */
  lemma InspectSucceeds(levels: seq<ClassLevel>)
    ensures Inspect(levels).Ok? <==>
      (forall i :: 0 <= i < |AllFields(levels)| ==> FieldIsTyped(AllFields(levels)[i])) &&
      (forall i :: 0 <= i < |AllMethods(levels)| ==> MethodHasParameter(AllMethods(levels)[i]))
  {
    InspectLevelsFlatten(NoInspection, levels);
    CollectOutputsSucceeds(map[], AllFields(levels));
    CollectInputsSucceeds(map[], AllMethods(levels));
  }

  /** Each output name is registered by its first emitter field, most derived class first;
      later levels never replace it. */
  lemma InspectOutputsFirstWins(levels: seq<ClassLevel>)
    requires Inspect(levels).Ok?
    ensures var outs, fs := Inspect(levels).value.outputs, AllFields(levels);
      && (forall k :: k in outs <==> exists i :: EmitsAt(fs, i, k))
      && (forall i, k :: EmitsAt(fs, i, k) && (forall j :: 0 <= j < i ==> !EmitsAt(fs, j, k)) ==>
            fs[i].typeArgument == Some(outs[k]))
  {
    InspectLevelsFlatten(NoInspection, levels);
    CollectOutputsFirstWins(map[], AllFields(levels));
  }

  /** Each input name carries the first parameter type of the LAST process method
      registering it, so a superclass's method overrides a subclass's for the same name. */
  lemma InspectInputsLastWins(levels: seq<ClassLevel>)
    requires Inspect(levels).Ok?
    ensures var ins, ms := Inspect(levels).value.inputs, AllMethods(levels);
      && (forall k :: k in ins <==> exists i :: ReadsAt(ms, i, k))
      && (forall i, k :: ReadsAt(ms, i, k) && (forall j :: i < j ==> !ReadsAt(ms, j, k)) ==>
            |ms[i].params| > 0 && ins[k] == ms[i].params[0])
  {
    InspectLevelsFlatten(NoInspection, levels);
    CollectInputsKeys(map[], AllMethods(levels));
    CollectInputsLastWins(map[], AllMethods(levels));
  }

  /** A process method without `@Process` names, or with an empty list, registers the
      any-input name "", so after inspection "" is among the flowlet's inputs. */
  lemma UnnamedProcessIsAnyInput(levels: seq<ClassLevel>, i: int)
    requires Inspect(levels).Ok?
    requires 0 <= i < |AllMethods(levels)| && IsProcessMethod(AllMethods(levels)[i])
    requires AllMethods(levels)[i].process.None? || AllMethods(levels)[i].process.value == []
    ensures AnyInput in Inspect(levels).value.inputs
  {
    InspectInputsLastWins(levels);
    assert ReadsAt(AllMethods(levels), i, AnyInput);
  }
}
