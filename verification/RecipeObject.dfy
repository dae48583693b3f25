/**
 Recipe objects (recipe.rs): their canonical bytes are their identity, so the
 decoder accepts exactly what the encoder writes, one byte string per recipe.
 */
module RecipeObject {
  import opened Wrappers
  import opened Bytes
  import opened Cbor
  import opened Objects

  /** The worlds this build executes, and every other spelling verbatim. */
  datatype World = Transform1 | Extractor1 | OtherWorld(text: Utf8)

  /** The wire spellings of the known worlds. */
  function KnownName(extractor: bool): string {
    if extractor then "datboi:extractor@1" else "datboi:transform@1"
  }

  lemma KnownAscii(extractor: bool)
    ensures IsAscii(KnownName(extractor))
  {
  }

  function KnownText(extractor: bool): Utf8 {
    KnownAscii(extractor);
    Ascii(KnownName(extractor))
  }

  function TransformText(): Utf8 {
    KnownText(false)
  }

  function ExtractorText(): Utf8 {
    KnownText(true)
  }

  lemma NamesDiffer(a: bool, b: bool)
    requires KnownName(a) == KnownName(b)
    ensures a == b
  {
    assert KnownName(a)[7] == KnownName(b)[7];
  }

  lemma SpellingsDiffer()
    ensures TransformText() != ExtractorText()
  {
    hide KnownName, Ascii;
    KnownAscii(false);
    KnownAscii(true);
    if TransformText() == ExtractorText() {
      AsciiInjective(KnownName(false), KnownName(true));
      NamesDiffer(false, true);
    }
  }

  datatype Operation = Builtin(name: Utf8, major: u32) | Wasm(component: Hash32, world: World, entry: Utf8)

  datatype InputRef = InputRef(hash: Hash32, role: Option<Utf8>)

  datatype OutputRef = OutputRef(hash: Hash32, size: u64, name: Option<Utf8>)

  datatype RecipeObj = RecipeObj(op: Operation, inputs: seq<InputRef>, outputs: seq<OutputRef>, params: seq<byte>)

  datatype RecipeError =
    | NotARecipe
    | Version(version: u32)
    | BadCbor(error: DecodeError)
    | NoOutputs
    | Invalid(why: string)

  const RECIPE_VERSION: u32 := 1

  // ---- Worlds ----

  function WorldText(w: World): Utf8 {
    match w
    case Transform1 => TransformText()
    case Extractor1 => ExtractorText()
    case OtherWorld(t) => t
  }

  function ParseWorld(t: Utf8): World {
    if t == TransformText() then Transform1
    else if t == ExtractorText() then Extractor1
    else OtherWorld(t)
  }

  /** A world a decoder can yield: a known spelling is never kept as an unknown one. */
  predicate WorldOk(w: World) {
    ParseWorld(WorldText(w)) == w
  }

  /** Spellings survive decoding, and among decoded worlds they tell worlds apart. */
  lemma WorldSpelling(w: World, t: Utf8)
    ensures WorldText(ParseWorld(t)) == t && WorldOk(ParseWorld(t))
    ensures ParseWorld(t) == w <==> WorldOk(w) && WorldText(w) == t
    ensures !WorldOk(w) <==> w == OtherWorld(TransformText()) || w == OtherWorld(ExtractorText())
  {
    SpellingsDiffer();
    hide TransformText, ExtractorText;
  }

  // ---- Values ----

  function OptText(t: Option<Utf8>): Option<Value> {
    if t.None? then None else Some(Text(t.value))
  }

  function InputFields(x: InputRef): (r: seq<Option<Value>>)
    ensures |r| == 2
  {
    [Some(Value.Bytes(x.hash)), OptText(x.role)]
  }

  function OutputFields(x: OutputRef): (r: seq<Option<Value>>)
    ensures |r| == 3
  {
    [Some(Value.Bytes(x.hash)), Some(Uint(x.size)), OptText(x.name)]
  }

  function OpFields(op: Operation): (r: seq<Option<Value>>)
    ensures |r| == 4
  {
    match op
    case Builtin(name, major) => [Some(Text(Ascii("b"))), Some(Text(name)), Some(Uint(major)), None]
    case Wasm(component, world, entry) =>
      [Some(Text(Ascii("w"))), Some(Value.Bytes(component)), Some(Text(WorldText(world))), Some(Text(entry))]
  }

  function InputValues(xs: seq<InputRef>): seq<Value> {
    Records(xs, InputFields)
  }

  function OutputValues(xs: seq<OutputRef>): seq<Value> {
    Records(xs, OutputFields)
  }

  function RecipeFields(x: RecipeObj): (r: seq<Option<Value>>)
    ensures |r| == 4
  {
    [Some(FieldMap(OpFields(x.op))), Some(Array(InputValues(x.inputs))), Some(Array(OutputValues(x.outputs))),
     if x.params == [] then None else Some(Value.Bytes(x.params))]
  }

  function RecipeValue(x: RecipeObj): Value {
    FieldMap(RecipeFields(x))
  }

  // ---- Which recipes are objects ----

  predicate NotEmptyIfPresent(t: Option<Utf8>) {
    t.Some? ==> t.value != []
  }

  /** `Recipe::validate`. */
  ghost predicate Valid(x: RecipeObj) {
    && x.outputs != []
    && (forall i :: 0 <= i < |x.inputs| ==> NotEmptyIfPresent(x.inputs[i].role))
    && (forall i :: 0 <= i < |x.outputs| ==> NotEmptyIfPresent(x.outputs[i].name))
    && match x.op
       case Builtin(name, _) => name != []
       case Wasm(_, world, entry) => WorldText(world) != [] && entry != []
  }

  ghost predicate OpFits(op: Operation) {
    match op
    case Builtin(name, _) => |name| < TWO_64
    case Wasm(_, world, entry) => |WorldText(world)| < TWO_64 && |entry| < TWO_64
  }

  ghost predicate TextFits(t: Option<Utf8>) {
    t.Some? ==> |t.value| < TWO_64
  }

  /** Every length fits 64 bits, as any recipe in memory does. */
  ghost predicate RecipeFits(x: RecipeObj) {
    && OpFits(x.op) && |x.inputs| < TWO_64 && |x.outputs| < TWO_64 && |x.params| < TWO_64
    && (forall i :: 0 <= i < |x.inputs| ==> TextFits(x.inputs[i].role))
    && forall i :: 0 <= i < |x.outputs| ==> TextFits(x.outputs[i].name)
  }

  ghost predicate OpDecodable(op: Operation) {
    op.Wasm? ==> WorldOk(op.world)
  }

  lemma OpValueOk(op: Operation)
    requires OpFits(op)
    ensures Canonical(FieldMap(OpFields(op))) && Fits(FieldMap(OpFields(op))) && HeightAtMost(FieldMap(OpFields(op)), 1)
  {
    match op {
      case Builtin(name, major) =>
        TextOk(Ascii("b"));
        TextOk(name);
        UintOk(major);
      case Wasm(component, world, entry) =>
        TextOk(Ascii("w"));
        BytesOk(component);
        TextOk(WorldText(world));
        TextOk(entry);
    }
    hide Canonical, Fits, HeightAtMost, FieldMap, WorldText, Ascii;
    assert FieldsOk(OpFields(op), 0);
    FieldMapOk(OpFields(op), 0);
  }

  lemma TextOk(t: Utf8)
    requires |t| < TWO_64
    ensures Canonical(Text(t)) && Fits(Text(t)) && HeightAtMost(Text(t), 0)
  {
  }

  lemma BytesOk(b: seq<byte>)
    requires |b| < TWO_64
    ensures Canonical(Value.Bytes(b)) && Fits(Value.Bytes(b)) && HeightAtMost(Value.Bytes(b), 0)
  {
  }

  lemma UintOk(n: u64)
    ensures Canonical(Uint(n)) && Fits(Uint(n)) && HeightAtMost(Uint(n), 0)
  {
  }

  lemma RecipeValueOk(x: RecipeObj)
    requires RecipeFits(x)
    ensures Canonical(RecipeValue(x)) && Fits(RecipeValue(x)) && HeightAtMost(RecipeValue(x), MAX_DEPTH)
  {
    OpValueOk(x.op);
    Heights(FieldMap(OpFields(x.op)), 1);
    RecordsOk(x.inputs, InputFields);
    RecordsOk(x.outputs, OutputFields);
    BytesOk(x.params);
    Heights(Value.Bytes(x.params), 0);
    Heights(Value.Bytes(x.params), 1);
    hide InputFields, OutputFields, OpFields, FieldMap, Records, Canonical, Fits, HeightAtMost;
    assert FieldsOk(RecipeFields(x), 2);
    FieldMapOk(RecipeFields(x), 2);
    HeightsTo(RecipeValue(x), 3, MAX_DEPTH);
  }

  // ---- Bytes ----

  /** A recipe's bytes: header line, then canonical CBOR. */
  function Encoded(x: RecipeObj): seq<byte>
    requires RecipeFits(x)
  {
    RecipeValueOk(x);
    CanonicalEncodes(RecipeValue(x));
    Header(RecipeKind, RECIPE_VERSION) + Encode(RecipeValue(x)).value
  }

  /** `Recipe::validate`, as the encoder and the decoder run it. */
  method Validate(x: RecipeObj) returns (r: Option<RecipeError>)
    ensures r.None? <==> Valid(x)
    ensures r == Some(NoOutputs) <==> x.outputs == []
  {
    if x.outputs == [] {
      return Some(NoOutputs);
    }
    for i := 0 to |x.inputs|
      invariant forall k :: 0 <= k < i ==> NotEmptyIfPresent(x.inputs[k].role)
    {
      if !NotEmptyIfPresent(x.inputs[i].role) {
        return Some(Invalid("empty optional text field"));
      }
    }
    for i := 0 to |x.outputs|
      invariant forall k :: 0 <= k < i ==> NotEmptyIfPresent(x.outputs[k].name)
    {
      if !NotEmptyIfPresent(x.outputs[i].name) {
        return Some(Invalid("empty optional text field"));
      }
    }
    match x.op {
      case Builtin(name, _) =>
        if name == [] {
          return Some(Invalid("empty builtin name"));
        }
      case Wasm(_, world, entry) =>
        if WorldText(world) == [] || entry == [] {
          return Some(Invalid("empty wasm world or export"));
        }
    }
    return None;
  }

  /** `Recipe::encode`. */
  method EncodeRecipe(x: RecipeObj) returns (r: Result<seq<byte>, RecipeError>)
    requires RecipeFits(x)
    ensures r.Ok? <==> Valid(x)
    ensures r.Ok? ==> r.value == Encoded(x)
  {
    var bad := Validate(x);
    if bad.Some? {
      return Err(bad.value);
    }
    RecipeValueOk(x);
    CanonicalEncodes(RecipeValue(x));
    var body := EncodeValue(RecipeValue(x));
    return Ok(Header(RecipeKind, RECIPE_VERSION) + body.value);
  }

  function ReadInput(f: seq<Option<Value>>): Option<InputRef> {
    if |f| != 2 || AsHash(f[0]).None? || (f[1].Some? && AsText(f[1]).None?) then None
    else Some(InputRef(AsHash(f[0]).value, AsText(f[1])))
  }

  function ReadOutput(f: seq<Option<Value>>): Option<OutputRef> {
    if |f| != 3 || AsHash(f[0]).None? || AsUint(f[1]).None? || (f[2].Some? && AsText(f[2]).None?) then None
    else Some(OutputRef(AsHash(f[0]).value, AsUint(f[1]).value, AsText(f[2])))
  }

  lemma InputsReadBack()
    ensures ReadsBack(InputFields, ReadInput, 2)
  {
    forall f: seq<Option<Value>>, x | |f| == 2 ensures Inverse(InputFields, ReadInput, f, x) {
      if ReadInput(f) == Some(x) {
        assert f == InputFields(x);
      }
    }
  }

  lemma OutputsReadBack()
    ensures ReadsBack(OutputFields, ReadOutput, 3)
  {
    forall f: seq<Option<Value>>, x | |f| == 3 ensures Inverse(OutputFields, ReadOutput, f, x) {
      if ReadOutput(f) == Some(x) {
        assert f == OutputFields(x);
      }
    }
  }

  /** `op_from_value`: the kind decides which other fields there must be. */
  method OpFromValue(v: Value) returns (r: Option<Operation>)
    requires Canonical(v)
    ensures forall x :: r == Some(x) <==> OpDecodable(x) && v == FieldMap(OpFields(x))
  {
    hide FieldMap, WorldText, ParseWorld, WorldOk;
    var scanned := FieldsOf(v, 4);
    r := None;
    KindsDiffer();
    if scanned.Some? {
      r := OpFromFields(scanned.value);
    }
    forall x ensures r == Some(x) <==> OpDecodable(x) && v == FieldMap(OpFields(x)) {
      assert v == FieldMap(OpFields(x)) <==> scanned == Some(OpFields(x));
    }
  }

  lemma KindsDiffer()
    ensures Ascii("b") != Ascii("w")
  {
    assert Ascii("b")[0] == 'b' as int && Ascii("w")[0] == 'w' as int;
  }

  method OpFromFields(fields: seq<Option<Value>>) returns (r: Option<Operation>)
    requires |fields| == 4
    ensures forall x :: r == Some(x) <==> OpDecodable(x) && fields == OpFields(x)
  {
    hide WorldText, ParseWorld, WorldOk, Ascii;
    KindsDiffer();
    var kind := AsText(fields[0]);
    if kind == Some(Ascii("b")) {
      r := BuiltinFromFields(fields);
    } else if kind == Some(Ascii("w")) {
      r := WasmFromFields(fields);
    } else {
      r := None;
    }
  }

  method BuiltinFromFields(fields: seq<Option<Value>>) returns (r: Option<Operation>)
    requires |fields| == 4 && fields[0] == Some(Text(Ascii("b")))
    ensures forall x :: r == Some(x) <==> x.Builtin? && fields == OpFields(x)
  {
    hide WorldText, Ascii;
    var name, major := AsText(fields[1]), AsUint(fields[2]);
    r := None;
    if name.Some? && major.Some? && major.value < 0x1_0000_0000 && fields[3].None? {
      r := Some(Builtin(name.value, major.value));
      assert fields == OpFields(r.value);
    }
  }

  method WasmFromFields(fields: seq<Option<Value>>) returns (r: Option<Operation>)
    requires |fields| == 4 && fields[0] == Some(Text(Ascii("w")))
    ensures forall x :: r == Some(x) <==> x.Wasm? && WorldOk(x.world) && fields == OpFields(x)
  {
    hide WorldText, ParseWorld, WorldOk, Ascii;
    var component, world, entry := AsHash(fields[1]), AsText(fields[2]), AsText(fields[3]);
    r := None;
    if component.Some? && world.Some? && entry.Some? {
      r := Some(Wasm(component.value, ParseWorld(world.value), entry.value));
    }
    hide AsText, AsHash;
    forall x: Operation ensures r == Some(x) <==> x.Wasm? && WorldOk(x.world) && fields == OpFields(x) {
      if x.Wasm? {
        WasmFields(fields, x, component, world, entry);
        if world.Some? {
          WorldSpelling(x.world, world.value);
        }
      }
    }
  }

  /** Fields that spell a wasm operation are the ones its parts are read from. */
  lemma WasmFields(fields: seq<Option<Value>>, x: Operation, component: Option<Hash32>, world: Option<Utf8>, entry: Option<Utf8>)
    requires |fields| == 4 && fields[0] == Some(Text(Ascii("w"))) && x.Wasm?
    requires component == AsHash(fields[1]) && world == AsText(fields[2]) && entry == AsText(fields[3])
    ensures fields == OpFields(x) <==> component == Some(x.component) && world == Some(WorldText(x.world)) && entry == Some(x.entry)
  {
    hide WorldText, Ascii;
    if component == Some(x.component) && world == Some(WorldText(x.world)) && entry == Some(x.entry) {
      assert fields == OpFields(x);
    }
  }

  // ---- Decoding ----

  /** What `decode` can return: valid, and known worlds under their own names. */
  ghost predicate IsObject(x: RecipeObj) {
    Valid(x) && RecipeFits(x) && OpDecodable(x.op)
  }

  method RecipeFromValue(v: Value) returns (r: Option<RecipeObj>)
    requires Canonical(v)
    ensures forall x :: r == Some(x) <==> OpDecodable(x.op) && v == RecipeValue(x)
  {
    hide FieldMap, OpFields, InputValues, OutputValues, OpDecodable;
    var scanned := FieldsOf(v, 4);
    r := None;
    if scanned.Some? {
      ScannedCanonical(v, scanned.value);
      r := RecipeFromFields(scanned.value);
    }
    forall x ensures r == Some(x) <==> OpDecodable(x.op) && v == RecipeValue(x) {
      assert v == RecipeValue(x) <==> scanned == Some(RecipeFields(x));
    }
  }

  method RecipeFromFields(fields: seq<Option<Value>>) returns (r: Option<RecipeObj>)
    requires |fields| == 4 && forall k :: 0 <= k < 4 && fields[k].Some? ==> Canonical(fields[k].value)
    ensures forall x :: r == Some(x) <==> OpDecodable(x.op) && fields == RecipeFields(x)
  {
    hide FieldMap, OpFields, OpDecodable, Canonical, ReadsBack, Records;
    var op: Option<Operation> := None;
    if fields[0].Some? {
      op := OpFromValue(fields[0].value);
    }
    InputsReadBack();
    OutputsReadBack();
    var inputs := RecordsFrom(fields[1], InputFields, ReadInput, 2);
    var outputs := RecordsFrom(fields[2], OutputFields, ReadOutput, 3);
    r := None;
    var params := if fields[3].Some? && fields[3].value.Bytes? then fields[3].value.bytes else [];
    if op.Some? && inputs.Some? && outputs.Some? && (fields[3].Some? ==> fields[3].value.Bytes? && params != []) {
      r := Some(RecipeObj(op.value, inputs.value, outputs.value, params));
      assert fields == RecipeFields(r.value);
    }
    forall x: RecipeObj ensures r == Some(x) <==> OpDecodable(x.op) && fields == RecipeFields(x) {
      if OpDecodable(x.op) && fields == RecipeFields(x) {
        assert op == Some(x.op) && inputs == Some(x.inputs) && outputs == Some(x.outputs);
        assert params == x.params;
      }
    }
  }

  /**
   `Recipe::decode`: a byte string decodes to a recipe exactly when it is that
   recipe's encoding. Both directions, so no two byte strings denote one recipe
   and no byte string denotes two.
   */
  method DecodeRecipe(b: seq<byte>) returns (r: Result<RecipeObj, RecipeError>)
    ensures forall x :: r == Ok(x) <==> IsObject(x) && b == Encoded(x)
  {
    hide RecipeValue, Header, Valid, OpDecodable, RecipeFits, Encode, Canonical, Fits, HeightAtMost, Decode;
    var sniffed := Sniff(b);
    if sniffed.None? || sniffed.value.0 != RecipeKind || sniffed.value.1 != RECIPE_VERSION {
      NotThisHeader(b, sniffed);
      return Err(if sniffed.Some? && sniffed.value.0 == RecipeKind then Version(sniffed.value.1) else NotARecipe);
    }
    var head := Header(RecipeKind, RECIPE_VERSION);
    var body := b[sniffed.value.2..];
    assert b == head + body;
    var value := DecodeInput(body);
    if value.Err? {
      NoValue(b, head, body);
      return Err(BadCbor(value.error));
    }
    var v := value.value;
    DecodeExact(body, v);
    var found := RecipeFromValue(v);
    BodyIs(head, body, v);
    if found.None? {
      return Err(Invalid("structure"));
    }
    var bad := Validate(found.value);
    if bad.Some? {
      return Err(bad.value);
    }
    FitsBack(found.value, v);
    return Ok(found.value);
  }

  lemma NotThisHeader(b: seq<byte>, sniffed: Option<(ObjectKind, u32, nat)>)
    requires Header(RecipeKind, RECIPE_VERSION) <= b ==> sniffed.Some? && sniffed.value.0 == RecipeKind && sniffed.value.1 == RECIPE_VERSION
    requires sniffed.None? || sniffed.value.0 != RecipeKind || sniffed.value.1 != RECIPE_VERSION
    ensures forall x :: RecipeFits(x) ==> b != Encoded(x)
  {
  }

  lemma NoValue(b: seq<byte>, head: seq<byte>, body: seq<byte>)
    requires head == Header(RecipeKind, RECIPE_VERSION) && b == head + body && Decode(body).Err?
    ensures forall x :: RecipeFits(x) ==> b != Encoded(x)
  {
    hide Header, RecipeValue, Encode, Decode, RecipeFits;
    forall x | RecipeFits(x) ensures b != Encoded(x) {
      if b == Encoded(x) {
        EncodedDecodes(x, head, body);
      }
    }
  }

  lemma EncodedDecodes(x: RecipeObj, head: seq<byte>, body: seq<byte>)
    requires RecipeFits(x) && head == Header(RecipeKind, RECIPE_VERSION) && head + body == Encoded(x)
    ensures Decode(body) == Ok(RecipeValue(x))
  {
    RecipeValueOk(x);
    CanonicalEncodes(RecipeValue(x));
    hide Header, RecipeValue, Encode, Decode, Canonical, Fits, HeightAtMost;
    assert body == (head + body)[|head|..];
    assert body == Encode(RecipeValue(x)).value;
    DecodeExact(body, RecipeValue(x));
  }

  /** The bytes are a recipe's encoding exactly when the decoded value is the recipe's value. */
  lemma BodyIs(head: seq<byte>, body: seq<byte>, v: Value)
    requires head == Header(RecipeKind, RECIPE_VERSION) && Decode(body) == Ok(v)
    ensures forall x :: RecipeFits(x) ==> (head + body == Encoded(x) <==> v == RecipeValue(x))
  {
    DecodeExact(body, v);
    hide Header, RecipeValue, Encode, Decode, Canonical, Fits, HeightAtMost, RecipeFits;
    forall x | RecipeFits(x) ensures head + body == Encoded(x) <==> v == RecipeValue(x) {
      if head + body == Encoded(x) {
        EncodedDecodes(x, head, body);
      }
    }
  }

  /** A recipe read back from a value that fits fits. */
  lemma FitsBack(x: RecipeObj, v: Value)
    requires v == RecipeValue(x) && Fits(v)
    ensures RecipeFits(x)
  {
    hide OpFits, TextFits, InputValues, OutputValues, OpFields, FieldMap, Entries;
    var fields := RecipeFields(x);
    FieldFits(fields);
    assert Fits(fields[0].value) && Fits(fields[1].value) && Fits(fields[2].value);
    assert x.params != [] ==> fields[3] == Some(Value.Bytes(x.params)) && Fits(fields[3].value);
    OpFitsBack(x.op);
    InputsFitBack(x.inputs);
    OutputsFitBack(x.outputs);
  }

  lemma InputsFitBack(xs: seq<InputRef>)
    requires Fits(Array(InputValues(xs)))
    ensures |xs| < TWO_64 && forall i :: 0 <= i < |xs| ==> TextFits(xs[i].role)
  {
    RecordFits(xs, InputFields);
    forall i | 0 <= i < |xs| ensures TextFits(xs[i].role) {
      assert InputFields(xs[i])[1] == OptText(xs[i].role);
    }
  }

  lemma OutputsFitBack(xs: seq<OutputRef>)
    requires Fits(Array(OutputValues(xs)))
    ensures |xs| < TWO_64 && forall i :: 0 <= i < |xs| ==> TextFits(xs[i].name)
  {
    RecordFits(xs, OutputFields);
    forall i | 0 <= i < |xs| ensures TextFits(xs[i].name) {
      assert OutputFields(xs[i])[2] == OptText(xs[i].name);
    }
  }

  lemma OpFitsBack(op: Operation)
    requires Fits(FieldMap(OpFields(op)))
    ensures OpFits(op)
  {
    FieldFits(OpFields(op));
    hide FieldMap, WorldText, Ascii;
    assert OpFields(op)[1].Some? && OpFields(op)[2].Some?;
    assert op.Wasm? ==> OpFields(op)[3].Some?;
  }

  // ---- Identity ----

  /** One recipe, one byte string; different recipes, different bytes. */
  lemma IdentityInjective(x: RecipeObj, y: RecipeObj)
    requires IsObject(x) && IsObject(y) && Encoded(x) == Encoded(y)
    ensures x == y
  {
    hide Header, Encode, RecipeValue;
    var head := Header(RecipeKind, RECIPE_VERSION);
    var body := Encoded(x)[|head|..];
    assert Encoded(x) == head + body by {
      EncodedHead(x);
    }
    EncodedDecodes(x, head, body);
    EncodedDecodes(y, head, body);
    ValueInjective(x, y);
  }

  lemma EncodedHead(x: RecipeObj)
    requires RecipeFits(x)
    ensures Header(RecipeKind, RECIPE_VERSION) <= Encoded(x)
  {
    hide Header, Encode, RecipeValue;
  }

  lemma ValueInjective(x: RecipeObj, y: RecipeObj)
    requires RecipeValue(x) == RecipeValue(y) && OpDecodable(x.op) && OpDecodable(y.op)
    ensures x == y
  {
    EntriesInjective(RecipeFields(x), RecipeFields(y));
    EntriesInjective(OpFields(x.op), OpFields(y.op));
    OpInjective(x.op, y.op);
    InputsReadBack();
    OutputsReadBack();
    RecordsInjective(x.inputs, y.inputs, InputFields, ReadInput, 2);
    RecordsInjective(x.outputs, y.outputs, OutputFields, ReadOutput, 3);
  }

  lemma OpInjective(a: Operation, b: Operation)
    requires OpFields(a) == OpFields(b) && OpDecodable(a) && OpDecodable(b)
    ensures a == b
  {
    KindsDiffer();
    if a.Wasm? {
      WorldSpelling(a.world, WorldText(a.world));
      WorldSpelling(b.world, WorldText(b.world));
    }
    hide Ascii, WorldText, WorldOk, ParseWorld;
  }

  /** An unknown world that carries a known spelling is the one thing two recipes can differ in and still share bytes. */
  lemma AliasedWorld(component: Hash32, entry: Utf8, inputs: seq<InputRef>, outputs: seq<OutputRef>, params: seq<byte>)
    ensures var known := RecipeObj(Wasm(component, Transform1, entry), inputs, outputs, params);
            var alias := RecipeObj(Wasm(component, OtherWorld(TransformText()), entry), inputs, outputs, params);
            known != alias && (Valid(known) <==> Valid(alias))
            && (RecipeFits(known) && RecipeFits(alias) ==> Encoded(known) == Encoded(alias))
            && !IsObject(alias)
  {
    hide TransformText, ExtractorText, Header, Encode;
    WorldSpelling(OtherWorld(TransformText()), TransformText());
    var known := RecipeObj(Wasm(component, Transform1, entry), inputs, outputs, params);
    var alias := RecipeObj(Wasm(component, OtherWorld(TransformText()), entry), inputs, outputs, params);
    assert RecipeValue(known) == RecipeValue(alias);
  }
}
