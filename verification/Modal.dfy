/**
 Opening a Discord modal for a form, and taking its submission. The correlation token that travels as
 the modal's custom id is abstract: decoding under the binding it was made for gives the payload back.
 */
module Modal {
  import opened Text

  const MODAL_MAX_FIELDS := 5

  datatype Kind = StringKind | OtherKind
  datatype Field = Field(name: string, kind: Kind, required: bool)

  /** A JSON value, as far as the submission looks at it. */
  datatype Value = Null | Str(text: string) | Other

  datatype Args = Object(slots: map<string, Value>) | NotObject
  datatype Payload = Payload(tool: string, args: Args)
  datatype Binding = Binding(tenant: string, sender: string)

  /** The token crate: encoding fails if the token would be too long. */
  datatype Codec = Codec(encode: (Payload, Binding) -> Option<string>, decode: (string, Binding) -> Option<Payload>)

  ghost predicate Inverts(c: Codec) {
    forall p, b :: c.encode(p, b).Some? ==> c.decode(c.encode(p, b).value, b) == Some(p)
  }

  // ----- Opening -----

  datatype OpenError = NoFields | TooManyFields | UnsupportedFieldKind | EmptyFieldName | DuplicateFieldName | TokenOversize
  datatype Opened = Opened(customId: string, inputs: seq<Field>) | CannotOpen(error: OpenError)

  /** The fields a modal can carry: text only, each with a name of its own. */
  ghost predicate Presentable(fields: seq<Field>, n: nat)
    requires n <= |fields|
  {
    && (forall i :: 0 <= i < n ==> fields[i].kind == StringKind && fields[i].name != "")
    && (forall i, j :: 0 <= i < j < n ==> fields[i].name != fields[j].name)
  }

  function Names(fields: seq<Field>): set<string> {
    set i | 0 <= i < |fields| :: fields[i].name
  }

  /** Every field an empty slot. */
  function Skeleton(fields: seq<Field>): map<string, Value> {
    map k | k in Names(fields) :: Null
  }

  method CheckFields(fields: seq<Field>) returns (error: Option<OpenError>)
    ensures error == None <==> Presentable(fields, |fields|)
    ensures error.Some? ==> error.value in {UnsupportedFieldKind, EmptyFieldName, DuplicateFieldName}
  {
    var seen: set<string> := {};
    for i := 0 to |fields|
      invariant Presentable(fields, i)
      invariant forall k :: k in seen <==> exists j :: 0 <= j < i && fields[j].name == k
    {
      var f := fields[i];
      if f.kind != StringKind {
        return Some(UnsupportedFieldKind);
      }
      if f.name == "" {
        return Some(EmptyFieldName);
      }
      if f.name in seen {
        return Some(DuplicateFieldName);
      }
      seen := seen + {f.name};
    }
    return None;
  }

  /** A modal opens exactly for one to five presentable fields whose token fits, and its token commits to their names. */
  method Open(c: Codec, fields: seq<Field>, tool: string, b: Binding) returns (r: Opened)
    ensures r.Opened? <==>
              1 <= |fields| <= MODAL_MAX_FIELDS && Presentable(fields, |fields|)
              && c.encode(Payload(tool, Object(Skeleton(fields))), b).Some?
    ensures r.Opened? ==> Some(r.customId) == c.encode(Payload(tool, Object(Skeleton(fields))), b) && r.inputs == fields
  {
    if fields == [] {
      return CannotOpen(NoFields);
    }
    if |fields| > MODAL_MAX_FIELDS {
      return CannotOpen(TooManyFields);
    }
    var error := CheckFields(fields);
    if error.Some? {
      return CannotOpen(error.value);
    }
    var skeleton: map<string, Value> := map[];
    for i := 0 to |fields|
      invariant forall k :: k in skeleton <==> exists j :: 0 <= j < i && fields[j].name == k
      invariant forall k :: k in skeleton ==> skeleton[k] == Null
    {
      skeleton := skeleton[fields[i].name := Null];
    }
    assert skeleton == Skeleton(fields);
    var token := c.encode(Payload(tool, Object(skeleton)), b);
    if token.None? {
      return CannotOpen(TokenOversize);
    }
    return Opened(token.value, fields);
  }

  // ----- Reading a submission -----

  datatype Input = Input(customId: string, value: string)

  datatype Reason = TokenRejected | ArgsNotObject | EmptyName | DuplicateName | MissingField | SlotNotNull | UnexpectedField
  datatype Submitted = Dispatch(tool: string, args: map<string, Value>) | Rejected(reason: Reason)

  /** All inputs of the first `n` rows. */
  function Inputs(rows: seq<seq<Input>>, n: nat): seq<Input>
    requires n <= |rows|
  {
    if n == 0 then [] else Inputs(rows, n - 1) + rows[n - 1]
  }

  /** No input without a name, and no name twice. */
  ghost predicate Clean(inputs: seq<Input>) {
    && (forall i :: 0 <= i < |inputs| ==> inputs[i].customId != "")
    && (forall i, j :: 0 <= i < j < |inputs| ==> inputs[i].customId != inputs[j].customId)
  }

  ghost predicate Has(inputs: seq<Input>, name: string) {
    exists i :: 0 <= i < |inputs| && inputs[i].customId == name
  }

  /** The map from name to value. */
  ghost predicate Tabulates(inputs: seq<Input>, m: map<string, string>) {
    && (forall i :: 0 <= i < |inputs| ==> inputs[i].customId in m && m[inputs[i].customId] == inputs[i].value)
    && (forall k :: k in m ==> Has(inputs, k))
  }

  lemma CleanAppend(inputs: seq<Input>, x: Input, m: map<string, string>)
    requires Clean(inputs) && Tabulates(inputs, m)
    ensures Clean(inputs + [x]) <==> x.customId != "" && x.customId !in m
    ensures Clean(inputs + [x]) ==> Tabulates(inputs + [x], m[x.customId := x.value])
  {
    var all := inputs + [x];
    assert all[|inputs|] == x;
    if x.customId in m {
      var i :| 0 <= i < |inputs| && inputs[i].customId == x.customId;
      assert all[i].customId == all[|inputs|].customId;
    } else {
      forall k | k in m[x.customId := x.value] ensures Has(all, k) {
        if k in m {
          var i :| 0 <= i < |inputs| && inputs[i].customId == k;
          assert all[i].customId == k;
        } else {
          assert all[|inputs|].customId == k;
        }
      }
    }
  }

  lemma CleanPrefix(inputs: seq<Input>, more: seq<Input>)
    requires Clean(inputs + more)
    ensures Clean(inputs)
  {
    forall i | 0 <= i < |inputs| ensures inputs[i].customId != "" {
      assert (inputs + more)[i] == inputs[i];
    }
    forall i, j | 0 <= i < j < |inputs| ensures inputs[i].customId != inputs[j].customId {
      assert (inputs + more)[i] == inputs[i] && (inputs + more)[j] == inputs[j];
    }
  }

  /** What reading comes to: the table of a clean submission, or why it is not clean. */
  ghost predicate ReadIs(inputs: seq<Input>, table: map<string, string>, bad: Option<Reason>) {
    if bad.None? then Clean(inputs) && Tabulates(inputs, table)
    else !Clean(inputs) && (bad.value == EmptyName || bad.value == DuplicateName)
  }

  method ReadRow(row: seq<Input>, table: map<string, string>, ghost before: seq<Input>)
    returns (all: map<string, string>, bad: Option<Reason>)
    requires ReadIs(before, table, None)
    ensures ReadIs(before + row, all, bad)
  {
    all, bad := table, None;
    assert before + row[..0] == before;
    for i := 0 to |row|
      invariant ReadIs(before + row[..i], all, None)
    {
      var x := row[i];
      CleanAppend(before + row[..i], x, all);
      assert before + row[..i] + [x] == before + row[..i + 1];
      if x.customId == "" || x.customId in all {
        if Clean(before + row) {
          assert before + row == before + row[..i + 1] + row[i + 1..];
          CleanPrefix(before + row[..i + 1], row[i + 1..]);
        }
        return all, Some(if x.customId == "" then EmptyName else DuplicateName);
      }
      all := all[x.customId := x.value];
    }
    assert row[..|row|] == row;
    return all, None;
  }

  method Read(rows: seq<seq<Input>>) returns (table: map<string, string>, bad: Option<Reason>)
    ensures ReadIs(Inputs(rows, |rows|), table, bad)
  {
    table, bad := map[], None;
    for i := 0 to |rows|
      invariant ReadIs(Inputs(rows, i), table, None)
    {
      table, bad := ReadRow(rows[i], table, Inputs(rows, i));
      if bad.Some? {
        InputsPrefix(rows, i + 1, |rows|);
        return table, bad;
      }
    }
    bad := None;
  }

  lemma {:induction false} InputsPrefix(rows: seq<seq<Input>>, n: nat, m: nat)
    requires n <= m <= |rows|
    ensures Clean(Inputs(rows, m)) ==> Clean(Inputs(rows, n))
    decreases m - n
  {
    if n < m {
      InputsPrefix(rows, n + 1, m);
      if Clean(Inputs(rows, n + 1)) {
        CleanPrefix(Inputs(rows, n), rows[n]);
      }
    }
  }

  // ----- Filling the slots -----

  /** A submission fits the slots: the same names, and every slot empty. */
  ghost predicate Fits(slots: map<string, Value>, table: map<string, string>) {
    slots.Keys == table.Keys && forall k :: k in slots ==> slots[k] == Null
  }

  function Filled(table: map<string, string>): map<string, Value> {
    map k | k in table :: Str(table[k])
  }

  /** All slots but `keys` are filled, and their values are used up. */
  ghost predicate Filling(slots: map<string, Value>, table: map<string, string>, filled: map<string, Value>,
                          left: map<string, string>, keys: set<string>)
  {
    && keys <= slots.Keys == filled.Keys
    && (forall k :: k in left <==> k in table && (k !in slots || k in keys))
    && (forall k :: k in left ==> left[k] == table[k])
    && (forall k :: k in slots && k !in keys ==> k in table && slots[k] == Null && filled[k] == Str(table[k]))
    && (forall k :: k in keys ==> filled[k] == slots[k])
  }

  lemma FillOne(slots: map<string, Value>, table: map<string, string>, filled: map<string, Value>,
                left: map<string, string>, keys: set<string>, key: string)
    requires Filling(slots, table, filled, left, keys) && key in keys && key in left && filled[key] == Null
    ensures Filling(slots, table, filled[key := Str(left[key])], left - {key}, keys - {key})
  {
  }

  lemma FillDone(slots: map<string, Value>, table: map<string, string>, filled: map<string, Value>, left: map<string, string>)
    requires Filling(slots, table, filled, left, {})
    ensures left == map[] ==> Fits(slots, table) && filled == Filled(table)
    ensures left != map[] ==> exists k :: k in table && k !in slots
  {
    if left == map[] {
      assert forall k :: k in table ==> k !in left && k in slots;
    } else {
      assert left.Keys != {};
      var k :| k in left;
      assert k in table && k !in slots;
    }
  }

  /** What a refusal says is wrong. */
  ghost predicate Explains(slots: map<string, Value>, table: map<string, string>, why: Reason) {
    match why
    case MissingField => exists k :: k in slots && k !in table
    case SlotNotNull => exists k :: k in slots && slots[k] != Null
    case UnexpectedField => exists k :: k in table && k !in slots
    case _ => false
  }

  /** Each slot takes the value submitted for it; a value too few or too many is refused. */
  method Fill(slots: map<string, Value>, table: map<string, string>) returns (r: Option<map<string, Value>>, why: Reason)
    ensures r.Some? <==> Fits(slots, table)
    ensures r.Some? ==> r.value == Filled(table)
    ensures r.None? ==> Explains(slots, table, why)
  {
    var filled, left, keys := slots, table, slots.Keys;
    why := MissingField;
    while keys != {}
      invariant Filling(slots, table, filled, left, keys)
      decreases |keys|
    {
      var key :| key in keys;
      if key !in left {
        return None, MissingField;
      }
      if filled[key] != Null {
        return None, SlotNotNull;
      }
      FillOne(slots, table, filled, left, keys, key);
      filled := filled[key := Str(left[key])];
      left := left - {key};
      keys := keys - {key};
    }
    FillDone(slots, table, filled, left);
    if left != map[] {
      return None, UnexpectedField;
    }
    return Some(filled), why;
  }

  // ----- Submitting -----

  /** The names posted are exactly the slots, each once, none empty, and the slots are empty. */
  ghost predicate Matches(slots: map<string, Value>, inputs: seq<Input>) {
    && Clean(inputs)
    && (forall k :: k in slots <==> Has(inputs, k))
    && (forall k :: k in slots ==> slots[k] == Null)
  }

  /** The arguments are exactly the posted values under their names. */
  ghost predicate Carries(args: map<string, Value>, inputs: seq<Input>) {
    && (forall i :: 0 <= i < |inputs| ==> inputs[i].customId in args && args[inputs[i].customId] == Str(inputs[i].value))
    && (forall k :: k in args ==> Has(inputs, k))
  }

  lemma FitsIsMatches(slots: map<string, Value>, inputs: seq<Input>, table: map<string, string>)
    requires Clean(inputs) && Tabulates(inputs, table)
    ensures Fits(slots, table) <==> Matches(slots, inputs)
    ensures Carries(Filled(table), inputs)
  {
    assert forall k :: k in table <==> Has(inputs, k);
  }

  /**
   A submission is dispatched exactly if its token decodes under the submitter's binding and its
   inputs match the committed slots; and then with exactly the posted values.
   */
  method Submit(c: Codec, customId: string, rows: seq<seq<Input>>, b: Binding) returns (r: Submitted)
    ensures r.Dispatch? <==>
              var p := c.decode(customId, b);
              p.Some? && p.value.args.Object? && Matches(p.value.args.slots, Inputs(rows, |rows|))
    ensures r.Dispatch? ==> r.tool == c.decode(customId, b).value.tool && Carries(r.args, Inputs(rows, |rows|))
    ensures r == Rejected(TokenRejected) <==> c.decode(customId, b).None?
  {
    var p := c.decode(customId, b);
    if p.None? {
      return Rejected(TokenRejected);
    }
    if p.value.args.NotObject? {
      return Rejected(ArgsNotObject);
    }
    var table, bad := Read(rows);
    if bad.Some? {
      return Rejected(bad.value);
    }
    var slots := p.value.args.slots;
    FitsIsMatches(slots, Inputs(rows, |rows|), table);
    var filled, why := Fill(slots, table);
    if filled.None? {
      return Rejected(why);
    }
    return Dispatch(p.value.tool, filled.value);
  }

  // ----- There and back -----

  /** A filling of the form: the inputs carry the fields' names, each once, in any order and any rows. */
  ghost predicate IsFilling(fields: seq<Field>, inputs: seq<Input>) {
    && Clean(inputs)
    && (forall k :: Has(inputs, k) <==> k in Names(fields))
  }

  /** Whatever a user enters in a form that opened is accepted under the same binding, and arrives unchanged. */
  lemma FillingIsAccepted(c: Codec, fields: seq<Field>, tool: string, b: Binding, inputs: seq<Input>)
    requires Inverts(c) && Presentable(fields, |fields|) && IsFilling(fields, inputs)
    requires c.encode(Payload(tool, Object(Skeleton(fields))), b).Some?
    ensures var p := c.decode(c.encode(Payload(tool, Object(Skeleton(fields))), b).value, b);
            p == Some(Payload(tool, Object(Skeleton(fields)))) && Matches(p.value.args.slots, inputs)
  {
    var slots := Skeleton(fields);
    assert forall k :: k in slots <==> k in Names(fields);
  }

  /** One input per field, in order, is a filling. */
  lemma InOrderIsFilling(fields: seq<Field>, values: seq<string>, inputs: seq<Input>)
    requires |fields| == |values| == |inputs| && Presentable(fields, |fields|)
    requires forall i :: 0 <= i < |fields| ==> inputs[i] == Input(fields[i].name, values[i])
    ensures IsFilling(fields, inputs)
  {
    forall k ensures Has(inputs, k) <==> k in Names(fields) {
      if Has(inputs, k) {
        var i :| 0 <= i < |inputs| && inputs[i].customId == k;
        assert fields[i].name in Names(fields);
      }
      if k in Names(fields) {
        var i :| 0 <= i < |fields| && fields[i].name == k;
        assert inputs[i].customId == k;
      }
    }
  }

  /** Open a form, post a filling back, and the tool gets exactly what was entered. */
  method OpenAndSubmit(c: Codec, fields: seq<Field>, tool: string, b: Binding, values: seq<string>)
    returns (modal: Opened, r: Submitted)
    requires Inverts(c) && |values| == |fields|
    ensures modal.Opened? ==>
              && r.Dispatch? && r.tool == tool && r.args.Keys == Names(fields)
              && forall i :: 0 <= i < |fields| ==> r.args[fields[i].name] == Str(values[i])
  {
    modal := Open(c, fields, tool, b);
    r := Rejected(TokenRejected);
    if modal.Opened? {
      var rows := seq(|fields|, i requires 0 <= i < |fields| => [Input(fields[i].name, values[i])]);
      ghost var inputs := Inputs(rows, |rows|);
      OnePerRow(rows, |rows|);
      InOrderIsFilling(fields, values, inputs);
      FillingIsAccepted(c, fields, tool, b, inputs);
      r := Submit(c, modal.customId, rows, b);
      CarriesEach(fields, values, inputs, r.args);
    }
  }

  lemma CarriesEach(fields: seq<Field>, values: seq<string>, inputs: seq<Input>, args: map<string, Value>)
    requires |fields| == |values| == |inputs| && IsFilling(fields, inputs) && Carries(args, inputs)
    requires forall i :: 0 <= i < |fields| ==> inputs[i] == Input(fields[i].name, values[i])
    ensures args.Keys == Names(fields)
    ensures forall i :: 0 <= i < |fields| ==> fields[i].name in args && args[fields[i].name] == Str(values[i])
  {
    forall i | 0 <= i < |fields| ensures fields[i].name in args && args[fields[i].name] == Str(values[i]) {
      assert inputs[i] == Input(fields[i].name, values[i]);
    }
    forall k ensures k in args.Keys <==> k in Names(fields) {
      assert Has(inputs, k) <==> k in Names(fields);
      if Has(inputs, k) {
        var i :| 0 <= i < |inputs| && inputs[i].customId == k;
      }
    }
  }

  lemma {:induction false} OnePerRow(rows: seq<seq<Input>>, n: nat)
    requires n <= |rows| && forall i :: 0 <= i < |rows| ==> |rows[i]| == 1
    ensures |Inputs(rows, n)| == n && forall i :: 0 <= i < n ==> Inputs(rows, n)[i] == rows[i][0]
  {
    if n > 0 {
      OnePerRow(rows, n - 1);
    }
  }
}
