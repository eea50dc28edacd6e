/**
 * `LetterDeliveryService`: on launch and when the inbox appears, marks every
 * scheduled letter whose date has passed as delivered, so that letters whose
 * notification was missed still arrive.
 */
module LetterDelivery {

  import opened Wrappers
  import opened Errors
  import opened Dates
  import opened Identifiers
  import opened Letters
  import opened Filters
  import opened Storage

  /** A scheduled letter whose date is not after `now`. */
  predicate PastDue(l: Letter, now: Time) {
    !l.isDelivered && l.scheduledDate <= now
  }

  /** The letters of `s` whose date is not after `now` (the loop's test), in order. */
  function DueIn(s: seq<Letter>, now: Time): (r: seq<Letter>)
    ensures forall x :: x in r <==> x in s && x.scheduledDate <= now
  {
    if s == [] then []
    else if s[0].scheduledDate <= now then [s[0]] + DueIn(s[1..], now)
    else DueIn(s[1..], now)
  }

  lemma {:induction false} DueInAppend(s: seq<Letter>, t: seq<Letter>, now: Time)
    ensures DueIn(s + t, now) == DueIn(s, now) + DueIn(t, now)
  {
    if s == [] {
      assert s + t == t;
    } else {
      assert (s + t)[1..] == s[1..] + t;
      DueInAppend(s[1..], t, now);
    }
  }

  /** The letters a run at `now` delivers: the scheduled letters that are due, in stored order. */
  function DueLetters(letters: seq<Letter>, now: Time): (r: seq<Letter>)
    ensures forall x :: x in r <==> x in letters && PastDue(x, now)
  {
    DueIn(ScheduledLetters(letters), now)
  }

  /** The identifiers of `letters`, in order. */
  function Ids(letters: seq<Letter>): (r: seq<Id>)
    ensures |r| == |letters| && forall i :: 0 <= i < |letters| ==> r[i] == letters[i].id
  {
    seq(|letters|, i requires 0 <= i < |letters| => letters[i].id)
  }

  /**
   * What the loop does to the stored letters: `markLetterAsDelivered` for
   * each identifier in turn; the first failure ends the run.
   */
  function MarkAll(letters: seq<Letter>, ids: seq<Id>, now: Time): (r: Result<seq<Letter>, Error>)
    ensures r.Ok? ==> |r.value| == |letters|
    ensures r.Ok? ==> forall i :: 0 <= i < |letters| ==> r.value[i].id == letters[i].id
    ensures (forall i :: 0 <= i < |ids| ==> HasId(letters, ids[i])) ==> r.Ok?
    decreases |ids|
  {
    if ids == [] then Ok(letters)
    else
      var prefix, id := ids[..|ids| - 1], ids[|ids| - 1];
      match MarkAll(letters, prefix, now)
      case Err(e) => Err(e)
      case Ok(marked) =>
        assert HasId(letters, id) ==> HasId(marked, id) by {
          if HasId(letters, id) {
            var k :| 0 <= k < |letters| && letters[k].id == id;
            assert marked[k].id == id;
          }
        }
        assert (forall i :: 0 <= i < |ids| ==> HasId(letters, ids[i])) ==>
          forall i :: 0 <= i < |prefix| ==> HasId(letters, prefix[i]) by {
          assert forall i :: 0 <= i < |prefix| ==> prefix[i] == ids[i];
        }
        MarkDelivered(marked, id, now)
  }

  /**
   * The reference result of a run at `now`: every past-due letter is
   * replaced by its delivered copy and every other letter is kept.
   */
  function Reconcile(letters: seq<Letter>, now: Time): (r: seq<Letter>)
    ensures |r| == |letters|
  {
    seq(|letters|, i requires 0 <= i < |letters| =>
      if PastDue(letters[i], now) then MarkAsDelivered(letters[i], now) else letters[i])
  }

  /** After a run nothing is past due, so a second run at the same time delivers nothing. */
  lemma SecondRunDeliversNothing(letters: seq<Letter>, now: Time)
    ensures DueLetters(Reconcile(letters, now), now) == []
  {
    NothingPastDueAfterReconcile(letters, now);
    var scheduled := ScheduledLetters(Reconcile(letters, now));
    forall i | 0 <= i < |scheduled| ensures scheduled[i].scheduledDate > now {
      assert scheduled[i] in scheduled;
    }
    NoneDueIn(scheduled, now);
  }

  /** Letters all dated after `now` contain nothing due. */
  lemma {:induction false} NoneDueIn(s: seq<Letter>, now: Time)
    requires forall i :: 0 <= i < |s| ==> s[i].scheduledDate > now
    ensures DueIn(s, now) == []
  {
    if s != [] {
      NoneDueIn(s[1..], now);
    }
  }

  lemma NothingPastDueAfterReconcile(letters: seq<Letter>, now: Time)
    ensures forall x :: x in Reconcile(letters, now) ==> !PastDue(x, now)
  {
    var r := Reconcile(letters, now);
    forall x | x in r ensures !PastDue(x, now) {
      var j :| 0 <= j < |r| && r[j] == x;
    }
  }

  /** A run delivers exactly the past-due letters, stamps them `now`, and leaves every other letter alone. */
  lemma ReconcileDeliversExactlyPastDue(letters: seq<Letter>, now: Time, i: int)
    requires 0 <= i < |letters|
    ensures PastDue(letters[i], now) ==>
      Reconcile(letters, now)[i].isDelivered && Reconcile(letters, now)[i].deliveredAt == Some(now)
    ensures !PastDue(letters[i], now) ==> Reconcile(letters, now)[i] == letters[i]
    ensures Reconcile(letters, now)[i].id == letters[i].id
    ensures Reconcile(letters, now)[i].scheduledDate == letters[i].scheduledDate
  {
  }

  /** A letter scheduled exactly at `now` counts as past due. */
  lemma BoundaryIsPastDue(l: Letter, now: Time)
    requires !l.isDelivered && l.scheduledDate == now
    ensures DueLetters([l], now) == [l]
    ensures Reconcile([l], now) == [MarkAsDelivered(l, now)]
  {
    assert ScheduledLetters([l]) == [l];
    assert [l][1..] == [];
    assert DueIn([l], now) == [l] + DueIn([], now);
  }

  /** The letters whose identifier is in `marked` replaced by their delivered copies. */
  function MarkedWhere(letters: seq<Letter>, marked: set<Id>, now: Time): (r: seq<Letter>)
    ensures |r| == |letters|
  {
    seq(|letters|, i requires 0 <= i < |letters| =>
      if letters[i].id in marked then MarkAsDelivered(letters[i], now) else letters[i])
  }

  /** The identifiers listed in `ids`. */
  function IdSet(ids: seq<Id>): set<Id> {
    set i | 0 <= i < |ids| :: ids[i]
  }

  lemma IdSetSnoc(ids: seq<Id>)
    requires ids != []
    ensures IdSet(ids) == IdSet(ids[..|ids| - 1]) + {ids[|ids| - 1]}
  {
    var prefix := ids[..|ids| - 1];
    forall x | x in IdSet(ids) ensures x in IdSet(prefix) + {ids[|ids| - 1]} {
      var i :| 0 <= i < |ids| && ids[i] == x;
      if i < |prefix| {
        assert prefix[i] == x;
      }
    }
    forall x | x in IdSet(prefix) ensures x in IdSet(ids) {
      var i :| 0 <= i < |prefix| && prefix[i] == x;
      assert ids[i] == x;
    }
  }

  /** With unique identifiers, marking one more present identifier adds it to the marked set. */
  lemma MarkedWhereStep(letters: seq<Letter>, before: set<Id>, id: Id, now: Time)
    requires UniqueIds(letters) && HasId(letters, id)
    ensures MarkDelivered(MarkedWhere(letters, before, now), id, now) == Ok(MarkedWhere(letters, before + {id}, now))
  {
    var marked := MarkedWhere(letters, before, now);
    assert HasId(marked, id) by {
      var k :| 0 <= k < |letters| && letters[k].id == id;
      assert marked[k].id == id;
    }
    var k := FindLetter(marked, id).value;
    var r := MarkDelivered(marked, id, now).value;
    var after := MarkedWhere(letters, before + {id}, now);
    forall i | 0 <= i < |letters| ensures r[i] == after[i] {
      if i != k {
        assert LetterId(letters[i]) != LetterId(letters[k]);
      } else {
        MarkAsDeliveredTwice(letters[k], now, now);
      }
    }
    assert r == after;
  }

  /** With unique identifiers, marking a list of present identifiers marks exactly the letters with those identifiers. */
  lemma {:induction false} MarkAllMarksSet(letters: seq<Letter>, ids: seq<Id>, now: Time)
    requires UniqueIds(letters)
    requires forall i :: 0 <= i < |ids| ==> HasId(letters, ids[i])
    ensures MarkAll(letters, ids, now) == Ok(MarkedWhere(letters, IdSet(ids), now))
    decreases |ids|
  {
    if ids == [] {
      assert IdSet(ids) == {};
      assert MarkedWhere(letters, {}, now) == letters;
    } else {
      var prefix, id := ids[..|ids| - 1], ids[|ids| - 1];
      assert forall i :: 0 <= i < |prefix| ==> prefix[i] == ids[i];
      MarkAllMarksSet(letters, prefix, now);
      IdSetSnoc(ids);
      MarkedWhereStep(letters, IdSet(prefix), id, now);
    }
  }

  /** Every due letter's identifier is that of a stored letter. */
  lemma DueIdsPresent(letters: seq<Letter>, now: Time)
    ensures forall i :: 0 <= i < |DueLetters(letters, now)| ==> HasId(letters, Ids(DueLetters(letters, now))[i])
  {
    var due := DueLetters(letters, now);
    forall i | 0 <= i < |due| ensures HasId(letters, Ids(due)[i]) {
      assert due[i] in due;
      var k :| 0 <= k < |letters| && letters[k] == due[i];
    }
  }

  /** With unique identifiers, a letter whose identifier is among the due ones is itself past due. */
  lemma MarkedIdIsPastDue(letters: seq<Letter>, now: Time, j: int)
    requires UniqueIds(letters) && 0 <= j < |letters|
    requires letters[j].id in IdSet(Ids(DueLetters(letters, now)))
    ensures PastDue(letters[j], now)
  {
    var due := DueLetters(letters, now);
    var ids := Ids(due);
    var i :| 0 <= i < |ids| && ids[i] == letters[j].id;
    assert due[i] in due;
    var k :| 0 <= k < |letters| && letters[k] == due[i];
    assert LetterId(letters[k]) == LetterId(letters[j]);
  }

  /** With unique identifiers, a letter's identifier is among the due ones exactly when it is past due. */
  lemma DueIdsArePastDue(letters: seq<Letter>, now: Time)
    requires UniqueIds(letters)
    ensures MarkedWhere(letters, IdSet(Ids(DueLetters(letters, now))), now) == Reconcile(letters, now)
  {
    var due := DueLetters(letters, now);
    var ids := Ids(due);
    var marked := IdSet(ids);
    forall j | 0 <= j < |letters|
      ensures MarkedWhere(letters, marked, now)[j] == Reconcile(letters, now)[j]
    {
      if PastDue(letters[j], now) {
        assert letters[j] in due;
        var i :| 0 <= i < |due| && due[i] == letters[j];
        assert ids[i] == letters[j].id;
      }
      if letters[j].id in marked {
        MarkedIdIsPastDue(letters, now, j);
      }
    }
  }

  /** With unique identifiers, the loop's result is the reference reconciliation. */
  lemma MarkAllReconciles(letters: seq<Letter>, now: Time)
    requires UniqueIds(letters)
    ensures MarkAll(letters, Ids(DueLetters(letters, now)), now) == Ok(Reconcile(letters, now))
  {
    DueIdsPresent(letters, now);
    MarkAllMarksSet(letters, Ids(DueLetters(letters, now)), now);
    DueIdsArePastDue(letters, now);
  }

  /** One more letter examined by the loop. */
  lemma DueStep(s: seq<Letter>, i: int, now: Time)
    requires 0 <= i < |s|
    ensures s[i].scheduledDate <= now ==> DueIn(s[..i + 1], now) == DueIn(s[..i], now) + [s[i]]
    ensures s[i].scheduledDate > now ==> DueIn(s[..i + 1], now) == DueIn(s[..i], now)
  {
    assert s[..i + 1] == s[..i] + [s[i]];
    DueInAppend(s[..i], [s[i]], now);
  }

  /** Marking one more identifier extends the fold by one step. */
  lemma MarkAllStep(letters: seq<Letter>, ids: seq<Id>, id: Id, now: Time)
    requires MarkAll(letters, ids, now).Ok?
    ensures MarkAll(letters, ids + [id], now) == MarkDelivered(MarkAll(letters, ids, now).value, id, now)
  {
    assert (ids + [id])[..|ids|] == ids;
  }

  lemma IdsStep(s: seq<Letter>, l: Letter)
    ensures Ids(s + [l]) == Ids(s) + [l.id]
  {
  }

  /** The identifiers posted so far grow by one exactly when the next scheduled letter is due. */
  lemma PostedStep(s: seq<Letter>, i: int, now: Time)
    requires 0 <= i < |s|
    ensures s[i].scheduledDate <= now ==> Ids(DueIn(s[..i + 1], now)) == Ids(DueIn(s[..i], now)) + [s[i].id]
    ensures s[i].scheduledDate > now ==> Ids(DueIn(s[..i + 1], now)) == Ids(DueIn(s[..i], now))
  {
    DueStep(s, i, now);
    if s[i].scheduledDate <= now {
      IdsStep(DueIn(s[..i], now), s[i]);
    }
  }

  class LetterDeliveryService {
    const storage: StorageService

    constructor(storage: StorageService)
      ensures this.storage == storage
    {
      this.storage := storage;
    }

    /**
     * One pass of the delivery loop: `markLetterAsDelivered` on a letter that
     * was loaded from the store, which therefore succeeds and extends the fold.
     */
    method DeliverOne(letter: Letter, ghost original: seq<Letter>, ghost posted: seq<Id>, now: Time)
      modifies storage
      requires letter in original
      requires MarkAll(original, posted, now).Ok? && storage.LoadAllLetters() == MarkAll(original, posted, now)
      ensures storage.LoadAllLetters() == MarkAll(original, posted + [letter.id], now)
      ensures storage.LoadAllLetters().Ok?
      ensures storage.user == old(storage.user) && storage.onboardingCompleted == old(storage.onboardingCompleted)
      ensures storage.journalEntries == old(storage.journalEntries)
    {
      ghost var current := storage.LoadAllLetters().value;
      assert HasId(current, letter.id) by {
        var k :| 0 <= k < |original| && original[k] == letter;
        assert current[k].id == letter.id;
      }
      var r := storage.MarkLetterAsDelivered(letter.id, now);
      if r.Fail? {
        assert false;
      }
      MarkAllStep(original, posted, letter.id, now);
    }

    /**
     * `checkAndDeliverPastDueLetters`: loads the scheduled letters and marks
     * each one whose date is not after `now`, counting it and posting its
     * identifier.  A load failure is caught and changes nothing.  The
     * `markLetterAsDelivered` call in the loop cannot fail: the letters were
     * just loaded and marking keeps every identifier in place.
     */
    method CheckAndDeliverPastDueLetters(now: Time) returns (deliveredCount: nat, posted: seq<Id>)
      modifies storage
      ensures old(storage.LoadAllLetters()).Err? ==> deliveredCount == 0 && posted == [] && unchanged(storage)
      ensures old(storage.LoadAllLetters()).Ok? ==>
        var due := DueLetters(old(storage.LoadAllLetters()).value, now);
        deliveredCount == |due| && posted == Ids(due)
        && storage.LoadAllLetters() == MarkAll(old(storage.LoadAllLetters()).value, Ids(due), now)
      ensures storage.user == old(storage.user) && storage.onboardingCompleted == old(storage.onboardingCompleted)
      ensures storage.journalEntries == old(storage.journalEntries)
    {
      deliveredCount, posted := 0, [];
      var loaded := storage.LoadScheduledLetters();
      if loaded.Err? {
        return;
      }
      ghost var original := storage.LoadAllLetters().value;
      deliveredCount, posted := DeliverDue(loaded.value, original, now);
    }

    /**
     * The loop of `checkAndDeliverPastDueLetters` over `scheduledLetters`,
     * all taken from the stored `original`: each due letter is marked,
     * counted and posted, in order.
     */
    method DeliverDue(scheduledLetters: seq<Letter>, ghost original: seq<Letter>, now: Time)
      returns (deliveredCount: nat, posted: seq<Id>)
      modifies storage
      requires forall k :: 0 <= k < |scheduledLetters| ==> scheduledLetters[k] in original
      requires storage.LoadAllLetters() == Ok(original)
      ensures posted == Ids(DueIn(scheduledLetters, now)) && deliveredCount == |posted|
      ensures storage.LoadAllLetters() == MarkAll(original, posted, now)
      ensures storage.user == old(storage.user) && storage.onboardingCompleted == old(storage.onboardingCompleted)
      ensures storage.journalEntries == old(storage.journalEntries)
    {
      deliveredCount, posted := 0, [];
      var i := 0;
      assert scheduledLetters[..i] == [];
      while i < |scheduledLetters|
        invariant 0 <= i <= |scheduledLetters|
        invariant posted == Ids(DueIn(scheduledLetters[..i], now)) && deliveredCount == |posted|
        invariant storage.LoadAllLetters() == MarkAll(original, posted, now)
        invariant storage.LoadAllLetters().Ok?
        invariant storage.user == old(storage.user) && storage.onboardingCompleted == old(storage.onboardingCompleted)
        invariant storage.journalEntries == old(storage.journalEntries)
      {
        posted := VisitOne(scheduledLetters, i, original, posted, now);
        deliveredCount := |posted|;
        i := i + 1;
      }
      assert scheduledLetters[..i] == scheduledLetters;
    }

    /** One turn of the loop: the `i`-th scheduled letter is marked and posted exactly when it is due. */
    method VisitOne(scheduledLetters: seq<Letter>, i: nat, ghost original: seq<Letter>, posted: seq<Id>, now: Time)
      returns (posted': seq<Id>)
      modifies storage
      requires i < |scheduledLetters| && scheduledLetters[i] in original
      requires posted == Ids(DueIn(scheduledLetters[..i], now))
      requires MarkAll(original, posted, now).Ok? && storage.LoadAllLetters() == MarkAll(original, posted, now)
      ensures posted' == Ids(DueIn(scheduledLetters[..i + 1], now))
      ensures storage.LoadAllLetters() == MarkAll(original, posted', now)
      ensures storage.LoadAllLetters().Ok?
      ensures storage.user == old(storage.user) && storage.onboardingCompleted == old(storage.onboardingCompleted)
      ensures storage.journalEntries == old(storage.journalEntries)
    {
      var letter := scheduledLetters[i];
      PostedStep(scheduledLetters, i, now);
      posted' := posted;
      if letter.scheduledDate <= now {
        DeliverOne(letter, original, posted, now);
        posted' := posted + [letter.id];
      }
    }
  }
}
