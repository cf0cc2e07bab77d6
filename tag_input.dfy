/** The tag field of `src/components/log/tag-input-with-suggestions.tsx`:
    the comma-separated value is read as tokens plus the token being typed;
    suggestions come from the tags of every stored session, ranked by how
    often they occur; picking one completes the value. */
module TagInput {
  import opened Wrappers
  import opened Text
  import opened Seqs
  import opened LocalDatastore
  import opened SessionViews

  /** `normalizeTag`: the trimmed tag, which is empty exactly for a blank
      tag and which a second trim leaves alone. */
  function NormalizeTag(tag: string): (r: string)
    ensures r == "" <==> AllSpace(tag)
    ensures Trim(r) == r
  {
    TrimEmptyIffBlank(tag);
    TrimIdempotent(tag);
    Trim(tag)
  }

  /** `maxSuggestions = 5` */
  const DefaultMaxSuggestions: nat := 5

  datatype TagFrequency = TagFrequency(tag: string, count: int)

  /** The comparator of the frequency list: higher count first, then the
      tag in `localeCompare` order. */
  predicate MoreFrequentFirst(a: TagFrequency, b: TagFrequency) {
    a.count > b.count || (a.count == b.count && StrLe(a.tag, b.tag))
  }

  lemma MoreFrequentFirstIsPreorder()
    ensures Total(MoreFrequentFirst) && Transitive(MoreFrequentFirst)
  {
    forall a, b ensures MoreFrequentFirst(a, b) || MoreFrequentFirst(b, a) {
      StrLeTotal(a.tag, b.tag);
    }
    forall a, b, c | MoreFrequentFirst(a, b) && MoreFrequentFirst(b, c)
      ensures MoreFrequentFirst(a, c)
    {
      if a.count == b.count && b.count == c.count {
        StrLeTransitive(a.tag, b.tag, c.tag);
      }
    }
  }

  /** One entry per key, counting the key's occurrences. */
  function CountEntries(keys: seq<string>, occurrences: seq<string>): seq<TagFrequency> {
    seq(|keys|, i requires 0 <= i < |keys| => TagFrequency(keys[i], multiset(occurrences)[keys[i]]))
  }

  /** The frequency list the effect computes from the stored sessions. */
  function Frequencies(sessions: seq<SessionRecord>): seq<TagFrequency> {
    var occurrences := TagOccurrences(sessions);
    Sort(CountEntries(FirstAppearance(occurrences), occurrences), MoreFrequentFirst)
  }

  function TagsOf(items: seq<TagFrequency>): (r: seq<string>)
    ensures |r| == |items| && forall i :: 0 <= i < |r| ==> r[i] == items[i].tag
  {
    seq(|items|, i requires 0 <= i < |items| => items[i].tag)
  }

  /** The map the effect fills: `map.set(t, (map.get(t) ?? 0) + 1)` for
      each occurrence `t`, in order. */
  function CountMap(occurrences: seq<string>): map<string, int> {
    if occurrences == [] then map[]
    else
      var m := CountMap(occurrences[..|occurrences| - 1]);
      var t := occurrences[|occurrences| - 1];
      m[t := (if t in m then m[t] else 0) + 1]
  }

  /** The map counts occurrences: its keys are the tags that occur, and
      each value is the number of occurrences. */
  lemma {:induction false} CountMapCounts(occurrences: seq<string>)
    ensures forall t :: t in CountMap(occurrences) <==> t in occurrences
    ensures forall t :: t in CountMap(occurrences) ==> CountMap(occurrences)[t] == multiset(occurrences)[t]
    decreases |occurrences|
  {
    if occurrences != [] {
      var n := |occurrences| - 1;
      CountMapCounts(occurrences[..n]);
      assert occurrences == occurrences[..n] + [occurrences[n]];
    }
  }

  lemma CountMapSnoc(seen: seq<string>, x: string)
    ensures var m := CountMap(seen);
      CountMap(seen + [x]) == m[x := (if x in m then m[x] else 0) + 1]
  {
    assert (seen + [x])[..|seen|] == seen;
  }

  /** The key order grows by `t` when the map has no count for it yet. */
  lemma CountKeyStep(seen: seq<string>, t: string)
    ensures FirstAppearance(seen + [t]) == FirstAppearance(seen) + (if t in CountMap(seen) then [] else [t])
  {
    FirstAppearanceSnoc(seen, t);
    FirstAppearanceHas(seen, t);
    CountMapCounts(seen);
  }

  /** `map.set(t, (map.get(t) ?? 0) + 1)`, the key order growing when `t`
      is new. */
  method CountOne(keys: seq<string>, counts: map<string, int>, ghost seen: seq<string>, t: string)
    returns (keys': seq<string>, counts': map<string, int>)
    requires keys == FirstAppearance(seen) && counts == CountMap(seen)
    ensures keys' == FirstAppearance(seen + [t]) && counts' == CountMap(seen + [t])
  {
    CountMapSnoc(seen, t);
    CountKeyStep(seen, t);
    if t in counts {
      counts' := counts[t := counts[t] + 1];
      keys' := keys;
    } else {
      counts' := counts[t := 1];
      keys' := keys + [t];
    }
  }

  /** One step of the inner `forEach`: normalize tag `j` and count it
      unless it is blank. */
  method CountTag(tags: seq<string>, j: nat, keys: seq<string>, counts: map<string, int>,
                  ghost seen: seq<string>, ghost before: seq<string>)
    returns (keys': seq<string>, counts': map<string, int>, ghost seen': seq<string>)
    requires j < |tags| && seen == before + NonBlankTrimmed(tags[..j])
    requires keys == FirstAppearance(seen) && counts == CountMap(seen)
    ensures seen' == before + NonBlankTrimmed(tags[..j + 1])
    ensures keys' == FirstAppearance(seen') && counts' == CountMap(seen')
  {
    var normalized := NormalizeTag(tags[j]);
    CountedSoFarStep(before, tags, j);
    keys', counts', seen' := keys, counts, seen;
    if normalized != "" {
      keys', counts' := CountOne(keys, counts, seen, normalized);
      seen' := seen + [normalized];
    }
  }

  /** The tags counted after tag `j`: one more when its trim is not blank. */
  lemma CountedSoFarStep(before: seq<string>, tags: seq<string>, j: nat)
    requires j < |tags|
    ensures var t := Trim(tags[j]);
      before + NonBlankTrimmed(tags[..j + 1]) == before + NonBlankTrimmed(tags[..j]) + (if t == "" then [] else [t])
  {
    NonBlankTrimmedSnoc(tags, j, Trim(tags[j]));
  }

  /** The inner `forEach` of the effect: count the tags of one session. */
  method CountSessionTags(tags: seq<string>, keys: seq<string>, counts: map<string, int>, ghost seen: seq<string>)
    returns (keys': seq<string>, counts': map<string, int>, ghost seen': seq<string>)
    requires keys == FirstAppearance(seen) && counts == CountMap(seen)
    ensures seen' == seen + NonBlankTrimmed(tags)
    ensures keys' == FirstAppearance(seen') && counts' == CountMap(seen')
  {
    keys', counts', seen' := keys, counts, seen;
    var j := 0;
    while j < |tags|
      invariant 0 <= j <= |tags|
      invariant seen' == seen + NonBlankTrimmed(tags[..j])
      invariant keys' == FirstAppearance(seen') && counts' == CountMap(seen')
    {
      keys', counts', seen' := CountTag(tags, j, keys', counts', seen', seen);
      j := j + 1;
    }
    assert tags[..|tags|] == tags;
  }

  /** The outer `forEach` of the effect: count the tags of every session. */
  method CountAll(sessions: seq<SessionRecord>) returns (keys: seq<string>, counts: map<string, int>)
    ensures keys == FirstAppearance(TagOccurrences(sessions)) && counts == CountMap(TagOccurrences(sessions))
  {
    keys, counts := [], map[];
    ghost var seen: seq<string> := [];
    var i := 0;
    while i < |sessions|
      invariant 0 <= i <= |sessions|
      invariant seen == TagOccurrences(sessions[..i])
      invariant keys == FirstAppearance(seen) && counts == CountMap(seen)
    {
      assert sessions[..i + 1] == sessions[..i] + [sessions[i]];
      TagOccurrencesStep(sessions[..i], sessions[i]);
      keys, counts, seen := CountSessionTags(sessions[i].tags, keys, counts, seen);
      i := i + 1;
    }
    assert sessions[..|sessions|] == sessions;
  }

  /** `Array.from(map.entries())` as frequency entries: each key with its
      count, which is its number of occurrences. */
  method FrequencyEntries(keys: seq<string>, counts: map<string, int>, ghost occurrences: seq<string>)
    returns (entries: seq<TagFrequency>)
    requires counts == CountMap(occurrences)
    ensures entries == CountEntries(keys, occurrences)
  {
    CountMapCounts(occurrences);
    entries := seq(|keys|, k requires 0 <= k < |keys| =>
      TagFrequency(keys[k], if keys[k] in counts then counts[keys[k]] else 0));
  }

  /** The effect of the component: count every trimmed, non-blank tag of
      every session in a map (keys in first-seen order), then sort the
      entries. */
  method CountTagFrequencies(sessions: seq<SessionRecord>) returns (r: seq<TagFrequency>)
    ensures r == Frequencies(sessions)
  {
    var keys, counts := CountAll(sessions);
    var entries := FrequencyEntries(keys, counts, TagOccurrences(sessions));
    r := Sort(entries, MoreFrequentFirst);
  }

  /** Each entry of the sorted list is one of the counted entries. */
  lemma FrequencyIsCounted(sessions: seq<SessionRecord>, i: nat)
    requires i < |Frequencies(sessions)|
    ensures var occurrences := TagOccurrences(sessions);
      exists a :: 0 <= a < |FirstAppearance(occurrences)|
        && Frequencies(sessions)[i] == CountEntries(FirstAppearance(occurrences), occurrences)[a]
  {
    var occurrences := TagOccurrences(sessions);
    var entries := CountEntries(FirstAppearance(occurrences), occurrences);
    var f := Frequencies(sessions);
    assert multiset(f) == multiset(entries);
    assert f[i] in multiset(entries);
  }

  /** The frequency list has one entry per distinct non-blank trimmed tag,
      whose count is the number of its occurrences, and is sorted by count
      (descending) and then by tag. */
  lemma FrequenciesProperties(sessions: seq<SessionRecord>)
    ensures var f, occurrences := Frequencies(sessions), TagOccurrences(sessions);
      && SortedBy(f, MoreFrequentFirst)
      && (forall i, j :: 0 <= i < j < |f| ==> f[i].tag != f[j].tag)
      && (forall i :: 0 <= i < |f| ==>
            f[i].tag in occurrences && f[i].tag != "" && f[i].count == multiset(occurrences)[f[i].tag])
      && (forall k :: 0 <= k < |occurrences| ==> occurrences[k] in TagsOf(f))
  {
    var occurrences := TagOccurrences(sessions);
    var f := Frequencies(sessions);
    MoreFrequentFirstIsPreorder();
    SortSorted(CountEntries(FirstAppearance(occurrences), occurrences), MoreFrequentFirst);
    forall i | 0 <= i < |f|
      ensures f[i].tag in occurrences && f[i].tag != "" && f[i].count == multiset(occurrences)[f[i].tag]
    {
      FrequencyIsCounted(sessions, i);
    }
    FrequencyTagsDistinct(sessions);
    forall k | 0 <= k < |occurrences| ensures occurrences[k] in TagsOf(f) {
      FrequencyOfTag(sessions, occurrences[k]);
    }
  }

  lemma FrequencyTagsDistinct(sessions: seq<SessionRecord>)
    ensures var f := Frequencies(sessions); forall i, j :: 0 <= i < j < |f| ==> f[i].tag != f[j].tag
  {
    var occurrences := TagOccurrences(sessions);
    var keys := FirstAppearance(occurrences);
    var entries := CountEntries(keys, occurrences);
    var f := Frequencies(sessions);
    assert Distinct(entries);
    DistinctPermutation(entries, f);
    forall i, j | 0 <= i < j < |f| ensures f[i].tag != f[j].tag {
      FrequencyIsCounted(sessions, i);
      FrequencyIsCounted(sessions, j);
      var a :| 0 <= a < |keys| && f[i] == entries[a];
      var b :| 0 <= b < |keys| && f[j] == entries[b];
      assert a != b;
    }
  }

  lemma FrequencyOfTag(sessions: seq<SessionRecord>, t: string)
    requires t in TagOccurrences(sessions)
    ensures t in TagsOf(Frequencies(sessions))
  {
    var occurrences := TagOccurrences(sessions);
    var keys := FirstAppearance(occurrences);
    var entries := CountEntries(keys, occurrences);
    var f := Frequencies(sessions);
    FirstAppearanceHas(occurrences, t);
    var a :| 0 <= a < |keys| && keys[a] == t;
    assert entries[a] in multiset(f);
    var i :| 0 <= i < |f| && f[i] == entries[a];
    assert TagsOf(f)[i] == t;
  }

  /** `activeToken`: the trimmed text after the last comma, `""` for an
      empty value. */
  function ActiveToken(value: string): string {
    if value == "" then ""
    else
      var segments := Split(value, ',');
      Trim(segments[|segments| - 1])
  }

  /** The tokens before the last comma: the completed ones. */
  function CompletedTokens(value: string): seq<string> {
    var segments := Split(value, ',');
    NonBlankTrimmed(segments[..|segments| - 1])
  }

  /** `parsedTokens` are the completed tokens followed by the active token
      when it is not empty. */
  lemma ParsedTokensSplitAtActive(value: string)
    ensures CommaTokens(value)
         == CompletedTokens(value) + (if ActiveToken(value) == "" then [] else [ActiveToken(value)])
  {
    var segments := Split(value, ',');
    assert segments[..|segments|] == segments;
  }

  predicate EndsWithComma(s: string) {
    |s| > 0 && s[|s| - 1] == ','
  }

  /** When the trimmed value ends with a comma, the text after the last
      comma is blank, so no token is being typed. */
  lemma TrailingCommaLeavesNoActiveToken(value: string)
    requires EndsWithComma(Trim(value))
    ensures ActiveToken(value) == ""
    ensures CommaTokens(value) == CompletedTokens(value)
  {
    TrimShape(value);
    var r, i := Trim(value), TrimOffset(value);
    var a, b := value[..i + |r| - 1], value[i + |r|..];
    assert value[i + |r| - 1] == r[|r| - 1] == ',';
    assert value == a + [','] + b;
    assert ',' !in b by {
      forall k | 0 <= k < |b| ensures b[k] != ',' {
        assert IsSpace(b[k]);
      }
    }
    SplitLastPart(a, ',', b);
    TrimEmptyIffBlank(b);
    ParsedTokensSplitAtActive(value);
  }

  /** `handleSelect(tag)`: the completed tokens (all tokens when the value
      ends with a comma) followed by the chosen tag, joined by `", "`. */
  function HandleSelect(value: string, tag: string): string {
    var base := if EndsWithComma(Trim(value)) then CommaTokens(value) else CompletedTokens(value);
    Join(base + [tag], ", ")
  }

  /** Choosing a tag replaces the partial last token by it and keeps every
      completed token: reading the new value back gives exactly those. */
  lemma HandleSelectTokens(value: string, tag: string)
    requires IsToken(tag)
    ensures CommaTokens(HandleSelect(value, tag)) == CompletedTokens(value) + [tag]
  {
    if EndsWithComma(Trim(value)) {
      TrailingCommaLeavesNoActiveToken(value);
    }
    var segments := Split(value, ',');
    var done := segments[..|segments| - 1];
    NonBlankTrimmedAreTrimmed(done);
    NonBlankTrimmedAvoids(done, ',');
    var xs := CompletedTokens(value) + [tag];
    assert forall k :: 0 <= k < |xs| ==> IsToken(xs[k]);
    CommaTokensOfJoined(xs);
  }

  /** The lower-cased parsed tokens, against which suggestions are checked. */
  function Existing(value: string): set<string> {
    set t | t in CommaTokens(value) :: ToLower(t)
  }

  /** An entry is offered when its tag contains the query, case aside, and
      is not already among the tokens, case aside. */
  function Suggestible(query: string, existing: set<string>): TagFrequency -> bool {
    (item: TagFrequency) => Contains(ToLower(item.tag), query) && ToLower(item.tag) !in existing
  }

  function Min(a: nat, b: nat): nat {
    if a <= b then a else b
  }

  /** `suggestions`: at most `maxSuggestions` tags, in frequency order,
      each containing the active token and none already typed; none while
      no token is being typed. */
  function Suggestions(freqs: seq<TagFrequency>, value: string, maxSuggestions: nat): (r: seq<string>)
    ensures |r| <= maxSuggestions
    ensures ToLower(ActiveToken(value)) == "" ==> r == []
    ensures forall i :: 0 <= i < |r| ==> Contains(ToLower(r[i]), ToLower(ActiveToken(value)))
    ensures forall i, k :: 0 <= i < |r| && 0 <= k < |CommaTokens(value)| ==>
              ToLower(CommaTokens(value)[k]) != ToLower(r[i])
  {
    var query := ToLower(ActiveToken(value));
    if query == "" then []
    else
      var matches := Filter(freqs, Suggestible(query, Existing(value)));
      var shown := matches[..Min(maxSuggestions, |matches|)];
      assert forall i :: 0 <= i < |shown| ==> Suggestible(query, Existing(value))(shown[i]) by {
        forall i | 0 <= i < |shown| ensures Suggestible(query, Existing(value))(shown[i]) {
          assert shown[i] == matches[i];
        }
      }
      TagsOf(shown)
  }

  /** The cut only bites when there are more matches than slots: with
      fewer, every matching entry is suggested. */
  lemma SuggestionsComplete(freqs: seq<TagFrequency>, value: string, maxSuggestions: nat)
    requires ToLower(ActiveToken(value)) != ""
    ensures var p := Suggestible(ToLower(ActiveToken(value)), Existing(value));
      && |Suggestions(freqs, value, maxSuggestions)| == Min(maxSuggestions, |Filter(freqs, p)|)
      && (|Filter(freqs, p)| <= maxSuggestions ==>
            forall i :: 0 <= i < |freqs| && p(freqs[i]) ==> freqs[i].tag in Suggestions(freqs, value, maxSuggestions))
  {
    var p := Suggestible(ToLower(ActiveToken(value)), Existing(value));
    var matches := Filter(freqs, p);
    var r := Suggestions(freqs, value, maxSuggestions);
    if |matches| <= maxSuggestions {
      assert matches[..|matches|] == matches;
      forall i | 0 <= i < |freqs| && p(freqs[i]) ensures freqs[i].tag in r {
        var a :| 0 <= a < |matches| && matches[a] == freqs[i];
        assert r[a] == freqs[i].tag;
      }
    }
  }

  /** Suggestions come in the order of the frequency list: they are the
      tags of entries of that list, in a ranked order when it is ranked. */
  lemma SuggestionsInFrequencyOrder(freqs: seq<TagFrequency>, value: string, maxSuggestions: nat)
    requires SortedBy(freqs, MoreFrequentFirst)
    ensures var r := Suggestions(freqs, value, maxSuggestions);
      exists shown: seq<TagFrequency> :: |shown| == |r| && SortedBy(shown, MoreFrequentFirst)
        && forall i :: 0 <= i < |r| ==> shown[i] in freqs && shown[i].tag == r[i]
  {
    var r := Suggestions(freqs, value, maxSuggestions);
    var query := ToLower(ActiveToken(value));
    if query == "" {
      var shown: seq<TagFrequency> := [];
      assert |shown| == |r| && SortedBy(shown, MoreFrequentFirst);
    } else {
      var p := Suggestible(query, Existing(value));
      var matches := Filter(freqs, p);
      FilterSorted(freqs, p, MoreFrequentFirst);
      var shown := matches[..Min(maxSuggestions, |matches|)];
      assert SortedBy(shown, MoreFrequentFirst);
      forall i | 0 <= i < |r| ensures shown[i] in freqs && shown[i].tag == r[i] {
        assert shown[i] == matches[i];
      }
    }
  }

  /** The cut keeps the best-ranked matches: when a matching entry is
      suggested, so is every matching entry ranked before it. */
  lemma SuggestionsAreTopMatches(freqs: seq<TagFrequency>, value: string, maxSuggestions: nat, i: nat, j: nat)
    requires forall a, b :: 0 <= a < b < |freqs| ==> freqs[a].tag != freqs[b].tag
    requires i < j < |freqs|
    ensures var p, r := Suggestible(ToLower(ActiveToken(value)), Existing(value)), Suggestions(freqs, value, maxSuggestions);
      p(freqs[i]) && p(freqs[j]) && freqs[j].tag in r ==> freqs[i].tag in r
  {
    var query := ToLower(ActiveToken(value));
    var p := Suggestible(query, Existing(value));
    var r := Suggestions(freqs, value, maxSuggestions);
    if query != "" && p(freqs[i]) && p(freqs[j]) && freqs[j].tag in r {
      var matches := Filter(freqs, p);
      var m := Min(maxSuggestions, |matches|);
      assert |r| == m && forall k :: 0 <= k < m ==> r[k] == matches[k].tag;
      var b :| 0 <= b < m && r[b] == freqs[j].tag;
      var c :| 0 <= c < |freqs| && freqs[c] == matches[b];
      assert c == j;
      FilterPosition(freqs, p, j);
      FilterPosition(freqs, p, i);
      FilterPrefixGrows(freqs, p, i, j);
      var pj := |Filter(freqs[..j], p)|;
      var pi := |Filter(freqs[..i], p)|;
      assert Distinct(freqs);
      FilterDistinct(freqs, p);
      assert b == pj;
      assert r[pi] == freqs[i].tag;
    }
  }
}
