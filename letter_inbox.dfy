/**
 * The inbox screen's two lists: letters still waiting, soonest first, and
 * delivered letters, most recent delivery first.  Loading falls back to an
 * empty inbox.
 */
module Inbox {

  import opened Wrappers
  import opened Errors
  import opened Dates
  import opened Letters
  import opened Filters
  import opened Sorting
  import opened Storage

  /** The time a delivered letter is ordered by: its delivery time, or its creation time when that is missing. */
  function DeliveryTime(l: Letter): Time {
    if l.deliveredAt.Some? then l.deliveredAt.value else l.createdAt
  }

  function ScheduledKey(l: Letter): int {
    l.scheduledDate
  }

  /** Descending by delivery time is ascending by its negation. */
  function DeliveredKey(l: Letter): int {
    -DeliveryTime(l)
  }

  /** `scheduledLetters`: the undelivered letters, by ascending scheduled date. */
  function ScheduledList(letters: seq<Letter>): (r: seq<Letter>)
    ensures forall x :: x in r <==> x in letters && !x.isDelivered
    ensures multiset(r) == multiset(ScheduledLetters(letters))
    ensures forall i, j :: 0 <= i < j < |r| ==> r[i].scheduledDate <= r[j].scheduledDate
  {
    var r := SortBy(ScheduledLetters(letters), ScheduledKey);
    SameMembers(r, ScheduledLetters(letters));
    r
  }

  /** `deliveredLetters`: the delivered letters, by descending delivery time. */
  function DeliveredList(letters: seq<Letter>): (r: seq<Letter>)
    ensures forall x :: x in r <==> x in letters && x.isDelivered
    ensures multiset(r) == multiset(DeliveredLetters(letters))
    ensures forall i, j :: 0 <= i < j < |r| ==> DeliveryTime(r[i]) >= DeliveryTime(r[j])
  {
    var r := SortBy(DeliveredLetters(letters), DeliveredKey);
    SameMembers(r, DeliveredLetters(letters));
    assert forall i, j :: 0 <= i < j < |r| ==> DeliveryTime(r[i]) >= DeliveryTime(r[j]) by {
      assert forall i, j :: 0 <= i < j < |r| ==> DeliveredKey(r[i]) <= DeliveredKey(r[j]);
    }
    r
  }

  /** Every stored letter shows up in exactly one of the two lists, as often as it is stored. */
  lemma InboxPartition(letters: seq<Letter>)
    ensures multiset(ScheduledList(letters)) + multiset(DeliveredList(letters)) == multiset(letters)
    ensures |ScheduledList(letters)| + |DeliveredList(letters)| == |letters|
  {
    ScheduledDeliveredPartition(letters);
    assert |ScheduledList(letters)| == |multiset(ScheduledList(letters))|;
    assert |DeliveredList(letters)| == |multiset(DeliveredList(letters))|;
  }

  /** Letters already in date order are listed as they are stored. */
  lemma ScheduledListKeepsOrderedInput(letters: seq<Letter>)
    requires forall i :: 0 <= i < |letters| ==> !letters[i].isDelivered
    requires forall i, j :: 0 <= i < j < |letters| ==> letters[i].scheduledDate <= letters[j].scheduledDate
    ensures ScheduledList(letters) == letters
  {
    assert ScheduledLetters(letters) == letters;
    assert SortedBy(letters, ScheduledKey);
    SortBySorted(letters, ScheduledKey);
  }

  /** `loadLetters`: every stored letter, or none when loading fails. */
  function InboxLetters(loaded: Result<seq<Letter>, Error>): (r: seq<Letter>)
    ensures loaded.Ok? ==> r == loaded.value
    ensures loaded.Err? ==> r == []
  {
    if loaded.Ok? then loaded.value else []
  }

  /** After a failed load the inbox is empty: no scheduled and no delivered letter is shown. */
  lemma FailedLoadShowsEmptyInbox(storage: StorageService)
    requires storage.LoadAllLetters().Err?
    ensures ScheduledList(InboxLetters(storage.LoadAllLetters())) == []
    ensures DeliveredList(InboxLetters(storage.LoadAllLetters())) == []
  {
    InboxPartition([]);
  }
}
