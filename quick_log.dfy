/** The quick log page, `src/app/log/quick/page.tsx`: the body its submit
    hands to `addSession`, built from the form's state. */
module QuickLog {
  import opened Wrappers
  import opened Text
  import opened Schema
  import opened LocalDatastore

  /** `TYPES`: the types the select offers. */
  const Types: seq<string> := ["striking", "wrestling", "grappling", "tactics"]

  /** The type the form starts with. */
  const DefaultType: string := "wrestling"

  /** The form's state when submitted. The date and start time are fixed
      when the page loads (the clock is a parameter); the type is one the
      select offers; the duration is what `parseInt` made of the field. */
  datatype Form = Form(date: string, startTime: string, sessionType: string, durationMin: int, tags: string, memo: string)

  /** The form as the page first shows it. */
  function InitialForm(date: string, startTime: string): Form {
    Form(date, startTime, DefaultType, 60, "", "")
  }

  /** The type list of the page is the validator's enum, so every type the
      form can hold passes it, the initial one included. */
  lemma TypesAreSessionTypes(date: string, startTime: string)
    ensures Types == SessionTypes
    ensures InitialForm(date, startTime).sessionType in SessionTypes
  {
  }

  /** `tags.split(",").map(trim).filter(Boolean).slice(0, 3)` */
  function QuickTags(tags: string): (r: seq<string>)
    ensures |r| <= MaxTags
    ensures forall k :: 0 <= k < |r| ==> IsToken(r[k])
    ensures |r| == (if |CommaTokens(tags)| < MaxTags then |CommaTokens(tags)| else MaxTags)
    ensures r == CommaTokens(tags)[..|r|]
  {
    var tokens := CommaTokens(tags);
    tokens[..if |tokens| < MaxTags then |tokens| else MaxTags]
  }

  /** Tags typed as at most three tokens separated by `", "` come back as
      those tokens; from more, the first three are kept. */
  lemma QuickTagsOfJoined(xs: seq<string>)
    requires forall k :: 0 <= k < |xs| ==> IsToken(xs[k])
    ensures |xs| <= MaxTags ==> QuickTags(Join(xs, ", ")) == xs
    ensures |xs| > MaxTags ==> QuickTags(Join(xs, ", ")) == xs[..MaxTags]
  {
    CommaTokensOfJoined(xs);
  }

  /** `memo || undefined`: an empty memo is sent as absent. */
  function QuickMemo(memo: string): (r: Option<string>)
    ensures r.None? <==> memo == ""
    ensures r.Some? ==> r.value == memo
  {
    if memo == "" then None else Some(memo)
  }

  function Strs(xs: seq<string>): (r: seq<Value>)
    ensures |r| == |xs| && forall k :: 0 <= k < |r| ==> r[k] == Str(xs[k])
  {
    seq(|xs|, k requires 0 <= k < |xs| => Str(xs[k]))
  }

  /** The `body` of `onSubmit`. */
  function QuickBody(f: Form): RawInput {
    RawInput(
      Some(Str(f.date)),
      Some(Str(f.startTime)),
      Some(Str(f.sessionType)),
      Some(Num(f.durationMin as real)),
      Some(Arr(Strs(QuickTags(f.tags)))),
      if QuickMemo(f.memo).None? then None else Some(Str(f.memo)))
  }

  /** With a type the select offers, the only keys the validator can
      reject are the date, when empty, and the duration, when not
      positive: the tag cap always holds. */
  lemma QuickBodyIssues(f: Form)
    requires f.sessionType in Types
    ensures Issues(QuickBody(f)) == (if f.date == "" then [DateField] else [])
                                    + (if f.durationMin <= 0 then [DurationField] else [])
    ensures ValidTags(QuickBody(f).tags)
  {
    var b := QuickBody(f);
    QuickTagsValid(f.tags);
    assert FieldValid(b, DurationField) <==> f.durationMin > 0 by {
      assert (f.durationMin as real).Floor == f.durationMin;
    }
    assert FieldValid(b, DateField) <==> f.date != "";
    assert FieldValid(b, StartTimeField) && FieldValid(b, TypeField) && FieldValid(b, TagsField) && FieldValid(b, MemoField);
    var dateIssue := if FieldValid(b, DateField) then [] else [DateField];
    var durationIssue := if FieldValid(b, DurationField) then [] else [DurationField];
    assert Issues(b) == dateIssue + [] + [] + durationIssue + [] + [];
  }

  /** The capped tags always pass the validator's tag rule. */
  lemma QuickTagsValid(tags: string)
    ensures ValidTags(Some(Arr(Strs(QuickTags(tags)))))
  {
    var items := Strs(QuickTags(tags));
    assert forall k :: 0 <= k < |items| ==> IsStr(items[k]);
  }

  /** A body that passes is parsed back into the form's values, with the
      capped tags and the defaulted memo. */
  lemma QuickBodyParses(f: Form)
    requires f.sessionType in Types && f.date != "" && f.durationMin > 0
    ensures Parse(QuickBody(f))
         == Success(SessionQuick(f.date, Some(f.startTime), f.sessionType, f.durationMin,
                                 QuickTags(f.tags), QuickMemo(f.memo)))
  {
    QuickBodyIssues(f);
    var r := Parse(QuickBody(f));
    assert r.Success?;
    var tags := QuickTags(f.tags);
    assert |r.value.tags| == |tags|;
    forall k | 0 <= k < |tags| ensures r.value.tags[k] == tags[k] {
      assert Strs(tags)[k] == Str(r.value.tags[k]);
    }
    assert r.value.tags == tags;
    assert r.value.durationMin as real == f.durationMin as real;
    assert r.value.memo == QuickMemo(f.memo);
    assert r.value.startTime == Some(f.startTime);
  }

  /** `onSubmit` on the local datastore: the session is saved exactly when
      the date is set and the duration positive, with the body's values
      and a pending state; otherwise nothing is written. */
  method Submit(store: LocalStore, f: Form, id: string, createdAt: string) returns (saved: bool)
    requires f.sessionType in Types
    modifies store
    ensures saved <==> f.date != "" && f.durationMin > 0
    ensures !saved ==> store.sessions == old(store.sessions)
    ensures saved ==> store.sessions == old(store.sessions) + [
      SessionRecord(id, createdAt, Pending, f.date, Some(f.startTime), f.sessionType, f.durationMin,
                    QuickTags(f.tags), QuickMemo(f.memo))]
  {
    QuickBodyIssues(f);
    if f.date != "" && f.durationMin > 0 {
      QuickBodyParses(f);
    }
    var r := store.AddSession(QuickBody(f), id, createdAt);
    saved := r.Success?;
  }
}
