/**
 The home page's shortlist (src/pages/Home.jsx): a fixed row of title slots
 in which the empty string marks a free slot. Adding fills the first free
 slot; removing blanks every slot holding the title.
 */
module Shortlist {
  import opened Optional
  import Seqs

  type Title = string

  /** The marker of a free slot. */
  const EmptySlot: Title := ""

  /** The number of slots a fresh shortlist has. */
  const SlotCount: nat := 3

  /** A shortlist of `n` free slots. */
  function Blank(n: nat): (slots: seq<Title>)
    ensures |slots| == n
    ensures forall i :: 0 <= i < n ==> slots[i] == EmptySlot
  {
    seq(n, _ => EmptySlot)
  }

  /**
   The shortlist a session starts with: the saved one when there is one,
   otherwise `SlotCount` free slots. `None` stands for an absent (or empty)
   saved entry; parsing the saved JSON text is not modelled.
   */
  function Initial(saved: Option<seq<Title>>): (slots: seq<Title>)
    ensures saved.None? ==> |slots| == SlotCount && CanAdd(slots)
    ensures saved.None? ==> forall t :: t != EmptySlot ==> !IsSelected(slots, t)
    ensures saved.Some? ==> slots == saved.value
  {
    match saved
    case None => Blank(SlotCount)
    case Some(s) => s
  }

  /** The number of free slots. */
  function FreeCount(slots: seq<Title>): nat {
    multiset(slots)[EmptySlot]
  }

  /** Whether a title may be added: some slot is free (`includes("")`). */
  function CanAdd(slots: seq<Title>): (b: bool)
    ensures b <==> exists i :: 0 <= i < |slots| && slots[i] == EmptySlot
  {
    Seqs.Contains(slots, EmptySlot)
  }

  /** Whether `title` is on the shortlist (`includes(title)`). */
  function IsSelected(slots: seq<Title>, title: Title): (b: bool)
    ensures b <==> exists i :: 0 <= i < |slots| && slots[i] == title
  {
    Seqs.Contains(slots, title)
  }

  /**
   `handleAddPoster`: write `title` into the first free slot, or change
   nothing when every slot is taken. There is no duplicate check.
   */
  function Add(slots: seq<Title>, title: Title): (r: seq<Title>)
    ensures |r| == |slots|
    ensures !CanAdd(slots) ==> r == slots
    ensures forall k :: Seqs.IsFirstIndex(slots, EmptySlot, k) ==> r == slots[k := title]
    ensures CanAdd(slots) ==> exists k :: Seqs.IsFirstIndex(slots, EmptySlot, k) && r == slots[k := title]
  {
    var k := Seqs.IndexOf(slots, EmptySlot);
    if k != -1 then
      forall k' | Seqs.IsFirstIndex(slots, EmptySlot, k')
        ensures k' == k
      {
        Seqs.FirstIndexUnique(slots, EmptySlot, k, k');
      }
      slots[k := title]
    else slots
  }

  /**
   `handleRemovePoster`: every slot equal to `title` becomes free; all other
   slots keep their title.
   */
  function Remove(slots: seq<Title>, title: Title): (r: seq<Title>)
    ensures |r| == |slots|
    ensures forall i :: 0 <= i < |slots| && slots[i] == title ==> r[i] == EmptySlot
    ensures forall i :: 0 <= i < |slots| && slots[i] != title ==> r[i] == slots[i]
  {
    if |slots| == 0 then []
    else [if slots[0] == title then EmptySlot else slots[0]] + Remove(slots[1..], title)
  }

  /**
   The state after the queued `handleRemovePoster` updates for `titles`, in
   order; each update is applied to the result of the previous one.
   */
  function RemoveAll(slots: seq<Title>, titles: seq<Title>): (r: seq<Title>)
    ensures |r| == |slots|
    ensures forall i :: 0 <= i < |slots| ==> r[i] == if slots[i] in titles then EmptySlot else slots[i]
    decreases |titles|
  {
    if |titles| == 0 then slots
    else
      var r := RemoveAll(Remove(slots, titles[0]), titles[1..]);
      assert forall x :: x in titles <==> x == titles[0] || x in titles[1..] by {
        assert titles == [titles[0]] + titles[1..];
      }
      r
  }

  /** Adding to a shortlist with a free slot puts the title on it. */
  lemma AddSelects(slots: seq<Title>, title: Title)
    requires CanAdd(slots)
    ensures IsSelected(Add(slots, title), title)
  {
    var added := Add(slots, title);
    var k :| Seqs.IsFirstIndex(slots, EmptySlot, k) && added == slots[k := title];
    assert added[k] == title;
  }

  /** A successful add of a real title uses up exactly one free slot. */
  lemma AddUsesOneSlot(slots: seq<Title>, title: Title)
    requires CanAdd(slots) && title != EmptySlot
    ensures FreeCount(Add(slots, title)) == FreeCount(slots) - 1
  {
  }

  /** Removing a real title takes every copy of it off the shortlist. */
  lemma RemoveUnselects(slots: seq<Title>, title: Title)
    requires title != EmptySlot
    ensures !IsSelected(Remove(slots, title), title)
  {
  }

  /** Removing twice is the same as removing once. */
  lemma RemoveIdempotent(slots: seq<Title>, title: Title)
    ensures Remove(Remove(slots, title), title) == Remove(slots, title)
  {
  }

  /** Removing a title that was just added to a shortlist not holding it undoes the add. */
  lemma RemoveUndoesAdd(slots: seq<Title>, title: Title)
    requires CanAdd(slots) && title != EmptySlot && !IsSelected(slots, title)
    ensures Remove(Add(slots, title), title) == slots
  {
  }

  /** Removing every title the shortlist holds, one after the other, frees all its slots. */
  lemma RemoveEachFreesAll(slots: seq<Title>)
    ensures RemoveAll(slots, slots) == Blank(|slots|)
  {
  }
}
