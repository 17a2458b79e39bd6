/**
 The selection drawer (src/components/SelectedMovies.jsx): the list of picked
 titles, the Random and Clear buttons, and confirming one pick, which sends a
 log of the whole shortlist to the server.
 */
module Drawer {
  import opened Optional
  import Seqs
  import opened Shortlist

  /** A poster image address. */
  type Url = string

  /** `posterMap`: the poster of each title that has one. */
  type PosterMap = map<Title, Url>

  /** The drawer's view of the shortlist and its posters. */
  datatype Selection = Selection(slots: seq<Title>, posters: PosterMap)

  /** One movie in the log sent on confirmation. */
  datatype LogEntry = LogEntry(title: Title, poster: Option<Url>, isSelected: bool)

  /** A call `handleAddPoster(title, poster)` made by the Random button. */
  datatype AddCall = AddCall(title: Title, poster: Option<Url>)

  /** How the post of the log ended. */
  datatype PostOutcome = Posted | PostFailed

  /** The result of confirming a pick: the log that was posted and the selection afterwards. */
  datatype Confirmation = Confirmation(sent: seq<LogEntry>, after: Selection)

  /** The most titles Random takes from the shuffled watchlist. */
  const RandomPicks: nat := 3

  /** Truthiness of a title: every title except the empty one. */
  predicate IsFilled(t: Title) {
    t != EmptySlot
  }

  /** `posterMap[title]`: `None` when the title has no entry (`undefined`). */
  function PosterOf(posters: PosterMap, title: Title): (p: Option<Url>)
    ensures p.Some? <==> title in posters
    ensures p.Some? ==> p.value == posters[title]
  {
    if title in posters then Some(posters[title]) else None
  }

  /** `posterMap[title] || null`: a missing or empty poster becomes `None` (`null`). */
  function PosterOrNull(posters: PosterMap, title: Title): (p: Option<Url>)
    ensures p.Some? <==> title in posters && posters[title] != ""
    ensures p.Some? ==> p.value == posters[title]
  {
    match PosterOf(posters, title)
    case Some(u) => if u != "" then Some(u) else None
    case None => None
  }

  /** `titles`: the filled slots, in slot order. */
  function Titles(slots: seq<Title>): (r: seq<Title>)
    ensures EmptySlot !in r
    ensures forall t :: t != EmptySlot ==> multiset(r)[t] == multiset(slots)[t]
    ensures |r| == |slots| - FreeCount(slots)
  {
    var r := Seqs.Filter(slots, IsFilled);
    Seqs.FilterCounts(slots, IsFilled);
    assert multiset(r)[EmptySlot] == 0;
    assert multiset(slots) == multiset(r) + multiset{}[EmptySlot := FreeCount(slots)];
    r
  }

  /** The titles of a run of slots are the titles of its parts, in order. */
  lemma TitlesAppend(a: seq<Title>, b: seq<Title>)
    ensures Titles(a + b) == Titles(a) + Titles(b)
  {
    Seqs.FilterAppend(a, b, IsFilled);
  }

  /** A shortlist without free slots lists all its slots as titles. */
  lemma TitlesOfFullShortlist(slots: seq<Title>)
    requires !CanAdd(slots)
    ensures Titles(slots) == slots
  {
    Seqs.FilterAllKept(slots, IsFilled);
  }

  /**
   The `movies` payload of `handleConfirmSelection(picked)`: one entry per
   slot, free slots included, flagging the entries whose title is `picked`.
   */
  function Payload(slots: seq<Title>, posters: PosterMap, picked: Title): (movies: seq<LogEntry>)
    ensures |movies| == |slots|
    ensures forall i :: 0 <= i < |slots| ==> movies[i].title == slots[i]
    ensures forall i :: 0 <= i < |slots| ==> movies[i].poster == PosterOf(posters, slots[i])
    ensures forall i :: 0 <= i < |slots| ==> (movies[i].isSelected <==> slots[i] == picked)
  {
    if |slots| == 0 then []
    else [LogEntry(slots[0], PosterOf(posters, slots[0]), slots[0] == picked)]
         + Payload(slots[1..], posters, picked)
  }

  /** The number of entries of a log flagged as the pick. */
  function FlaggedCount(movies: seq<LogEntry>): nat {
    if |movies| == 0 then 0
    else (if movies[0].isSelected then 1 else 0) + FlaggedCount(movies[1..])
  }

  /** The log flags as many entries as there are slots holding the pick. */
  lemma {:induction false} PayloadFlagsPickOnly(slots: seq<Title>, posters: PosterMap, picked: Title)
    ensures FlaggedCount(Payload(slots, posters, picked)) == multiset(slots)[picked]
  {
    if |slots| > 0 {
      assert slots == [slots[0]] + slots[1..];
      PayloadFlagsPickOnly(slots[1..], posters, picked);
    }
  }

  /**
   `handleConfirmSelection(picked)`: post the log; on success the selection
   and the poster map are emptied, on failure both stay as they were.
   */
  function Confirm(s: Selection, picked: Title, outcome: PostOutcome): (c: Confirmation)
    ensures |c.sent| == |s.slots|
    ensures forall i :: 0 <= i < |s.slots| ==> c.sent[i].title == s.slots[i]
    ensures forall i :: 0 <= i < |s.slots| ==> c.sent[i].poster == PosterOf(s.posters, s.slots[i])
    ensures forall i :: 0 <= i < |s.slots| ==> (c.sent[i].isSelected <==> s.slots[i] == picked)
    ensures outcome.Posted? ==> |c.after.slots| == 0 && |c.after.posters| == 0
    ensures outcome.PostFailed? ==> c.after == s
  {
    var movies := Payload(s.slots, s.posters, picked);
    match outcome
    case Posted => Confirmation(movies, Selection([], map[]))
    case PostFailed => Confirmation(movies, s)
  }

  /** A failed confirmation can be retried: the retry sends the same log. */
  lemma ConfirmRetrySendsSameLog(s: Selection, picked: Title, outcome: PostOutcome)
    ensures Confirm(Confirm(s, picked, PostFailed).after, picked, outcome).sent
         == Confirm(s, picked, outcome).sent
  {
  }

  /**
   After a successful confirmation the shortlist has no slots at all, so no
   title can be added to it and adding leaves it empty.
   */
  lemma ConfirmedShortlistTakesNoTitles(s: Selection, picked: Title, title: Title)
    ensures !CanAdd(Confirm(s, picked, Posted).after.slots)
    ensures Add(Confirm(s, picked, Posted).after.slots, title) == []
    ensures Titles(Confirm(s, picked, Posted).after.slots) == []
  {
  }

  /** The titles Random would add: those of `picks` that the shortlist does not hold, in order. */
  function Unpicked(picks: seq<Title>, slots: seq<Title>): seq<Title> {
    Seqs.Filter(picks, NotHeld(slots))
  }

  /** The test `!selectedPosters.includes(title)` as a predicate on titles. */
  function NotHeld(slots: seq<Title>): Title -> bool {
    t => t !in slots
  }

  /** Extending the candidate picks by one title extends the unpicked ones by at most that title. */
  lemma UnpickedSnoc(picks: seq<Title>, title: Title, slots: seq<Title>)
    ensures Unpicked(picks + [title], slots)
         == Unpicked(picks, slots) + (if title in slots then [] else [title])
  {
    Seqs.FilterAppend(picks, [title], NotHeld(slots));
  }

  /** The titles of a list of add calls. */
  function CallTitles(calls: seq<AddCall>): (ts: seq<Title>)
    ensures |ts| == |calls|
    ensures forall i :: 0 <= i < |calls| ==> ts[i] == calls[i].title
  {
    seq(|calls|, i requires 0 <= i < |calls| => calls[i].title)
  }

  /** Appending a call appends its title. */
  lemma CallTitlesSnoc(calls: seq<AddCall>, call: AddCall)
    ensures CallTitles(calls + [call]) == CallTitles(calls) + [call.title]
  {
  }

  /**
   The add calls for the candidate `picks`: each one the shortlist does not
   already hold is added, in order, with its poster or `None`.
   */
  method AddCalls(picks: seq<Title>, slots: seq<Title>, posters: PosterMap) returns (calls: seq<AddCall>)
    ensures |calls| <= |picks|
    ensures forall i :: 0 <= i < |calls| ==> calls[i].title in picks && calls[i].title !in slots
    ensures forall i :: 0 <= i < |calls| ==> calls[i].poster == PosterOrNull(posters, calls[i].title)
    ensures CallTitles(calls) == Unpicked(picks, slots)
  {
    calls := [];
    var i := 0;
    while i < |picks|
      invariant 0 <= i <= |picks|
      invariant |calls| <= i
      invariant forall j :: 0 <= j < |calls| ==> calls[j].title in picks && calls[j].title !in slots
      invariant forall j :: 0 <= j < |calls| ==> calls[j].poster == PosterOrNull(posters, calls[j].title)
      invariant CallTitles(calls) == Unpicked(picks[..i], slots)
    {
      var title := picks[i];
      assert picks[..i + 1] == picks[..i] + [title];
      UnpickedSnoc(picks[..i], title, slots);
      if title !in slots {
        var call := AddCall(title, PosterOrNull(posters, title));
        CallTitlesSnoc(calls, call);
        calls := calls + [call];
      }
      i := i + 1;
    }
    assert picks[..i] == picks;
  }

  /**
   `handleRandom`: `shuffled` is the watchlist in the order the random sort
   left it (any permutation). The first `RandomPicks` titles of it that the
   shortlist does not already hold are added, in order, each with its poster
   or `None`. An empty watchlist adds nothing.
   */
  method Random(watchlist: seq<Title>, slots: seq<Title>, posters: PosterMap, shuffled: seq<Title>)
    returns (calls: seq<AddCall>)
    requires multiset(shuffled) == multiset(watchlist)
    ensures |watchlist| == 0 ==> calls == []
    ensures |calls| <= RandomPicks
    ensures forall i :: 0 <= i < |calls| ==> calls[i].title in watchlist && calls[i].title !in slots
    ensures forall i :: 0 <= i < |calls| ==> calls[i].poster == PosterOrNull(posters, calls[i].title)
    ensures CallTitles(calls) == Unpicked(shuffled[..if |shuffled| < RandomPicks then |shuffled| else RandomPicks], slots)
  {
    if |watchlist| == 0 {
      assert |shuffled| == 0;
      calls := [];
      assert Unpicked([], slots) == [];
      return;
    }
    var picks := shuffled[..if |shuffled| < RandomPicks then |shuffled| else RandomPicks];
    calls := AddCalls(picks, slots, posters);
    forall i | 0 <= i < |calls|
      ensures calls[i].title in watchlist
    {
      var t := calls[i].title;
      assert t in shuffled;
      assert multiset(shuffled)[t] > 0;
    }
  }

  /** `handleClear`: one `handleRemovePoster` call per slot, in slot order. */
  function Clear(slots: seq<Title>): (removes: seq<Title>)
    ensures |removes| == |slots|
    ensures forall i :: 0 <= i < |slots| ==> removes[i] == slots[i]
    ensures RemoveAll(slots, removes) == Blank(|slots|)
  {
    RemoveEachFreesAll(slots);
    slots
  }
}
