/** _explain: the one or two strongest signals that had evidence, in words. */
module Explain {
  import opened Wrappers
  import opened StableSort
  import opened Scoring

  datatype Explanation = ColdStart | Because(parts: seq<Phrase>)

  function DefaultPhrase(s: Signal): Option<Phrase> {
    match s
    case ReadingDepth => Some(UsuallyFinish)
    case Suggestion => Some(DiscoveryPick)
    case SourceTrust => Some(FromSourceYouRead)
    case ContentQuality => Some(SubstantialRead)
    case TemporalContext => Some(Timely)
    case _ => None
  }

  /** The phrase of a signal: its note when it has one, else its stock phrase. */
  function PhraseFor(s: Signal, notes: map<Signal, Phrase>): Option<Phrase> {
    if s in notes then Some(notes[s]) else DefaultPhrase(s)
  }

  predicate Learned(s: Signal) {
    s != ContentQuality && s != TemporalContext
  }

  ghost predicate NotesMatch(notes: map<Signal, Phrase>) {
    forall s :: s in notes ==> OwnWords(s, notes[s])
  }

  function Members(order: seq<Signal>): (have: set<Signal>)
    ensures forall s :: s in have <==> s in order
  {
    set s | s in order
  }

  /** s is a strongest phrase-bearing signal of have. */
  ghost predicate Strongest(s: Signal, have: set<Signal>, notes: map<Signal, Phrase>, key: Signal -> real) {
    && s in have && PhraseFor(s, notes).Some?
    && forall t :: t in have && PhraseFor(t, notes).Some? ==> key(s) >= key(t)
  }

  /** The parts are the phrases of the two strongest phrase-bearing signals. */
  ghost predicate NamesStrongest(parts: seq<Phrase>, have: set<Signal>, notes: map<Signal, Phrase>,
                                 key: Signal -> real) {
    exists first, second ::
      && first != second
      && Strongest(first, have, notes, key) && Strongest(second, have - {first}, notes, key)
      && parts == [PhraseFor(first, notes).value, PhraseFor(second, notes).value]
  }

  /** The phrase-bearing signals of s, in order. */
  function Speaking(s: seq<Signal>, notes: map<Signal, Phrase>): seq<Signal> {
    if s == [] then []
    else if PhraseFor(s[0], notes).Some? then [s[0]] + Speaking(s[1..], notes)
    else Speaking(s[1..], notes)
  }

  lemma {:induction false} SpeakingMembers(s: seq<Signal>, notes: map<Signal, Phrase>)
    ensures forall t :: t in Speaking(s, notes) <==> t in s && PhraseFor(t, notes).Some?
  {
    if s != [] {
      SpeakingMembers(s[1..], notes);
    }
  }

  lemma {:induction false} SpeakingDescends(s: seq<Signal>, notes: map<Signal, Phrase>, key: Signal -> real)
    requires Descending(key, s) && Distinct(s)
    ensures Descending(key, Speaking(s, notes))
    ensures Distinct(Speaking(s, notes))
  {
    if s != [] {
      SpeakingDescends(s[1..], notes, key);
      SpeakingMembers(s[1..], notes);
      var rest := Speaking(s[1..], notes);
      forall k | 0 <= k < |rest| ensures key(s[0]) >= key(rest[k]) && rest[k] != s[0] {
        assert rest[k] in rest;
        var j :| 0 <= j < |s[1..]| && s[1..][j] == rest[k];
        assert s[j + 1] == rest[k];
      }
    }
  }

  lemma {:induction false} SpeakingAppend(s: seq<Signal>, t: Signal, notes: map<Signal, Phrase>)
    ensures Speaking(s + [t], notes) == Speaking(s, notes) + if PhraseFor(t, notes).Some? then [t] else []
  {
    if s == [] {
      assert s + [t] == [t];
    } else {
      SpeakingAppend(s[1..], t, notes);
      assert (s + [t])[1..] == s[1..] + [t];
    }
  }

  lemma DifferentSignalsDifferentWords(s: Signal, t: Signal, notes: map<Signal, Phrase>)
    requires NotesMatch(notes) && s != t && PhraseFor(s, notes).Some? && PhraseFor(t, notes).Some?
    ensures PhraseFor(s, notes) != PhraseFor(t, notes)
  {
    assert OwnWords(s, PhraseFor(s, notes).value) && OwnWords(t, PhraseFor(t, notes).value);
  }

  /** parts holds the phrases of the speaking signals seen so far. */
  ghost predicate Spoken(parts: seq<Phrase>, seen: seq<Signal>, notes: map<Signal, Phrase>) {
    && |parts| == |Speaking(seen, notes)|
    && forall k :: 0 <= k < |parts| ==> PhraseFor(Speaking(seen, notes)[k], notes) == Some(parts[k])
  }

  method Explaining(contributions: Signal -> real, haveOrder: seq<Signal>, notes: map<Signal, Phrase>)
    returns (text: Explanation)
    requires NotesMatch(notes) && Distinct(haveOrder)
    requires ContentQuality in haveOrder && TemporalContext in haveOrder
    ensures text == ColdStart <==> forall s :: s in haveOrder ==> !Learned(s)
    ensures text.Because? ==> NamesStrongest(text.parts, Members(haveOrder), notes, contributions)
  {
    if forall s | s in haveOrder :: !Learned(s) {
      return ColdStart;
    }
    var ordered := SortDesc(contributions, haveOrder);
    OrderedSignals(contributions, haveOrder);
    var parts: seq<Phrase> := [];
    var k := 0;
    while k < |ordered| && |parts| < 2
      invariant 0 <= k <= |ordered| && |parts| <= 2
      invariant Spoken(parts, ordered[..k], notes)
    {
      var phrase := PhraseFor(ordered[k], notes);
      SpokenNext(ordered, k, notes, parts);
      if phrase.Some? && phrase.value !in parts {
        parts := parts + [phrase.value];
      }
      k := k + 1;
    }
    TwoStrongest(contributions, haveOrder, ordered, k, notes, parts);
    return Because(parts);
  }

  lemma SpokenNext(ordered: seq<Signal>, k: nat, notes: map<Signal, Phrase>, parts: seq<Phrase>)
    requires k < |ordered| && NotesMatch(notes) && Distinct(ordered) && Spoken(parts, ordered[..k], notes)
    ensures PhraseFor(ordered[k], notes).None? ==> Spoken(parts, ordered[..k + 1], notes)
    ensures PhraseFor(ordered[k], notes).Some? ==>
              var p := PhraseFor(ordered[k], notes).value; p !in parts && Spoken(parts + [p], ordered[..k + 1], notes)
  {
    SpeakingAppend(ordered[..k], ordered[k], notes);
    assert ordered[..k] + [ordered[k]] == ordered[..k + 1];
    if PhraseFor(ordered[k], notes).Some? {
      FreshPhrase(ordered, k, notes, parts);
    }
  }

  lemma OrderedSignals(key: Signal -> real, haveOrder: seq<Signal>)
    requires Distinct(haveOrder)
    ensures var ordered := SortDesc(key, haveOrder);
            && Descending(key, ordered) && (forall s :: s in ordered <==> s in haveOrder)
            && Distinct(ordered)
  {
    var ordered := SortDesc(key, haveOrder);
    SortSorts(key, haveOrder);
    forall s ensures s in ordered <==> s in haveOrder {
      assert s in ordered <==> s in multiset(ordered);
      assert s in haveOrder <==> s in multiset(haveOrder);
    }
    DistinctPermuted(haveOrder, ordered);
  }

  lemma FreshPhrase(ordered: seq<Signal>, k: nat, notes: map<Signal, Phrase>, parts: seq<Phrase>)
    requires k < |ordered| && PhraseFor(ordered[k], notes).Some? && NotesMatch(notes)
    requires Distinct(ordered)
    requires Spoken(parts, ordered[..k], notes)
    ensures PhraseFor(ordered[k], notes).value !in parts
  {
    SpeakingMembers(ordered[..k], notes);
    forall l | 0 <= l < |parts| ensures parts[l] != PhraseFor(ordered[k], notes).value {
      var s := Speaking(ordered[..k], notes)[l];
      assert s in ordered[..k];
      DifferentSignalsDifferentWords(s, ordered[k], notes);
    }
  }

  lemma {:induction false} SpeakingConcat(s: seq<Signal>, t: seq<Signal>, notes: map<Signal, Phrase>)
    ensures Speaking(s + t, notes) == Speaking(s, notes) + Speaking(t, notes)
  {
    if s == [] {
      assert s + t == t;
    } else {
      SpeakingConcat(s[1..], t, notes);
      assert (s + t)[1..] == s[1..] + t;
    }
  }

  lemma AtLeastTwoSpeak(ordered: seq<Signal>, notes: map<Signal, Phrase>)
    requires ContentQuality in ordered && TemporalContext in ordered
    ensures |Speaking(ordered, notes)| >= 2
  {
    SpeakingMembers(ordered, notes);
    var speaking := Speaking(ordered, notes);
    assert ContentQuality in speaking && TemporalContext in speaking;
  }

  lemma FirstTwo(speaking: seq<Signal>, have: set<Signal>, notes: map<Signal, Phrase>, key: Signal -> real)
    requires Descending(key, speaking) && Distinct(speaking) && |speaking| >= 2
    requires forall t :: t in speaking <==> t in have && PhraseFor(t, notes).Some?
    ensures Strongest(speaking[0], have, notes, key)
    ensures Strongest(speaking[1], have - {speaking[0]}, notes, key)
  {
    forall t | t in have && PhraseFor(t, notes).Some?
      ensures key(speaking[0]) >= key(t) && (t != speaking[0] ==> key(speaking[1]) >= key(t))
    {
      var l :| 0 <= l < |speaking| && speaking[l] == t;
    }
    assert speaking[0] in speaking && speaking[1] in speaking;
  }

  lemma SpeakingPrefix(ordered: seq<Signal>, k: nat, notes: map<Signal, Phrase>)
    requires k <= |ordered|
    ensures Speaking(ordered[..k], notes) <= Speaking(ordered, notes)
  {
    SpeakingConcat(ordered[..k], ordered[k..], notes);
    assert ordered[..k] + ordered[k..] == ordered;
  }

  lemma TwoStrongest(key: Signal -> real, haveOrder: seq<Signal>, ordered: seq<Signal>, k: nat,
                     notes: map<Signal, Phrase>, parts: seq<Phrase>)
    requires ordered == SortDesc(key, haveOrder) && Distinct(haveOrder)
    requires ContentQuality in haveOrder && TemporalContext in haveOrder
    requires k <= |ordered| && Spoken(parts, ordered[..k], notes) && |parts| <= 2
    requires k < |ordered| ==> |parts| == 2
    ensures NamesStrongest(parts, Members(haveOrder), notes, key)
  {
    OrderedSignals(key, haveOrder);
    SpeakingDescends(ordered, notes, key);
    SpeakingMembers(ordered, notes);
    SpeakingPrefix(ordered, k, notes);
    AtLeastTwoSpeak(ordered, notes);
    assert k == |ordered| ==> ordered[..k] == ordered;
    var speaking := Speaking(ordered, notes);
    FirstTwo(speaking, Members(haveOrder), notes, key);
    assert parts == [PhraseFor(speaking[0], notes).value, PhraseFor(speaking[1], notes).value];
    assert speaking[0] != speaking[1];
  }
}
