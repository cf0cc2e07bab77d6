/** The `zSessionQuick` validator of `src/lib/schema/zod.ts`: which inputs
    `addSession` accepts, and what `parse` returns for them. */
module Schema {
  import opened Wrappers

  /** A JavaScript value as the validator inspects it; `Other` stands for
      booleans, objects and functions, none of which any field accepts. */
  datatype Value = Str(s: string) | Num(n: real) | Arr(items: seq<Value>) | Null | Other

  /** The `unknown` input of `addSession`: each key is absent (`None`, which
      is also what `undefined` reads as) or holds a value. */
  datatype RawInput = RawInput(
    date: Option<Value>,
    startTime: Option<Value>,
    sessionType: Option<Value>,
    durationMin: Option<Value>,
    tags: Option<Value>,
    memo: Option<Value>)

  /** The parsed input: `tags` always present thanks to `.default([])`.
      (`sessionType` is the source's `type` key, a Dafny keyword.) */
  datatype SessionQuick = SessionQuick(
    date: string,
    startTime: Option<string>,
    sessionType: string,
    durationMin: int,
    tags: seq<string>,
    memo: Option<string>)

  /** The key an issue of a failed parse is reported on. */
  datatype FieldName = DateField | StartTimeField | TypeField | DurationField | TagsField | MemoField

  /** `sessionTypeEnum` */
  const SessionTypes: seq<string> := ["striking", "wrestling", "grappling", "tactics"]

  const MaxTags: nat := 3

  predicate IsStr(v: Value) { v.Str? }

  /** `z.string().optional()`: absent or a string. */
  predicate OptionalString(v: Option<Value>) {
    v.None? || v.value.Str?
  }

  predicate ValidDate(v: Option<Value>) {
    v.Some? && v.value.Str? && |v.value.s| >= 1
  }

  predicate ValidType(v: Option<Value>) {
    v.Some? && v.value.Str? && v.value.s in SessionTypes
  }

  /** `z.number().int().positive()` */
  predicate ValidDuration(v: Option<Value>) {
    v.Some? && v.value.Num? && v.value.n.Floor as real == v.value.n && v.value.n > 0.0
  }

  /** `z.array(z.string()).max(3).optional()` */
  predicate ValidTags(v: Option<Value>) {
    v.None? || (v.value.Arr? && |v.value.items| <= MaxTags
                && forall k :: 0 <= k < |v.value.items| ==> IsStr(v.value.items[k]))
  }

  predicate FieldValid(input: RawInput, f: FieldName) {
    match f
    case DateField => ValidDate(input.date)
    case StartTimeField => OptionalString(input.startTime)
    case TypeField => ValidType(input.sessionType)
    case DurationField => ValidDuration(input.durationMin)
    case TagsField => ValidTags(input.tags)
    case MemoField => OptionalString(input.memo)
  }

  /** The whole schema: every key satisfies its rule. */
  predicate IsValid(input: RawInput) {
    && ValidDate(input.date)
    && OptionalString(input.startTime)
    && ValidType(input.sessionType)
    && ValidDuration(input.durationMin)
    && ValidTags(input.tags)
    && OptionalString(input.memo)
  }

  /** The keys that fail their rule, in schema order (zod reports every
      failing key, not just the first). */
  function Issues(input: RawInput): seq<FieldName> {
    (if FieldValid(input, DateField) then [] else [DateField])
    + (if FieldValid(input, StartTimeField) then [] else [StartTimeField])
    + (if FieldValid(input, TypeField) then [] else [TypeField])
    + (if FieldValid(input, DurationField) then [] else [DurationField])
    + (if FieldValid(input, TagsField) then [] else [TagsField])
    + (if FieldValid(input, MemoField) then [] else [MemoField])
  }

  function StringsOf(items: seq<Value>): (r: seq<string>)
    requires forall k :: 0 <= k < |items| ==> IsStr(items[k])
    ensures |r| == |items| && forall k :: 0 <= k < |r| ==> items[k] == Str(r[k])
  {
    if items == [] then []
    else
      assert IsStr(items[0]);
      [items[0].s] + StringsOf(items[1..])
  }

  function OptString(v: Option<Value>): Option<string>
    requires OptionalString(v)
  {
    if v.None? then None else Some(v.value.s)
  }

  /** `zSessionQuick.parse(input)`: the parsed value, or the failing keys. */
  function Parse(input: RawInput): (r: Result<SessionQuick, seq<FieldName>>)
    ensures r.Success? <==> IsValid(input)
    ensures r.Failure? ==> r.error != [] && forall f :: f in r.error <==> !FieldValid(input, f)
    ensures r.Success? ==>
      && Some(Str(r.value.date)) == input.date && |r.value.date| >= 1
      && Some(Str(r.value.sessionType)) == input.sessionType && r.value.sessionType in SessionTypes
      && Some(Num(r.value.durationMin as real)) == input.durationMin && r.value.durationMin > 0
      && |r.value.tags| <= MaxTags
      && (input.tags.None? ==> r.value.tags == [])
      && (input.tags.Some? ==>
            (input.tags.value.Arr? && |input.tags.value.items| == |r.value.tags|
             && forall k :: 0 <= k < |r.value.tags| ==> input.tags.value.items[k] == Str(r.value.tags[k])))
      && (r.value.startTime.Some? <==> input.startTime.Some?)
      && (r.value.startTime.Some? ==> input.startTime == Some(Str(r.value.startTime.value)))
      && (r.value.memo.Some? <==> input.memo.Some?)
      && (r.value.memo.Some? ==> input.memo == Some(Str(r.value.memo.value)))
  {
    var issues := Issues(input);
    if issues != [] then Failure(issues)
    else
      assert FieldValid(input, DateField) && FieldValid(input, StartTimeField) && FieldValid(input, TypeField);
      assert FieldValid(input, DurationField) && FieldValid(input, TagsField) && FieldValid(input, MemoField);
      var tags := if input.tags.None? then [] else StringsOf(input.tags.value.items);
      Success(SessionQuick(
        input.date.value.s,
        OptString(input.startTime),
        input.sessionType.value.s,
        input.durationMin.value.n.Floor,
        tags,
        OptString(input.memo)))
  }
}
