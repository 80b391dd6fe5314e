/** What a PATCH leaves, column by column, and when exactly it is refused or
    activates the booking. */
module PatchLaws {
  import opened Models
  import opened Jobs

  /** A column that is assigned holds the last value assigned to it. */
  lemma {:induction false} ColumnHoldsLastValue(j: Job, patch: seq<Assign>, i: nat)
    requires i < |patch|
    ensures var k := Patched(j, patch);
            match patch[i]
            case SetHotelId(v) => (forall n :: i < n < |patch| ==> !patch[n].SetHotelId?) ==> k.hotelId == v
            case SetCity(v) => (forall n :: i < n < |patch| ==> !patch[n].SetCity?) ==> k.terms.city == v
            case SetRoomType(v) => (forall n :: i < n < |patch| ==> !patch[n].SetRoomType?) ==> k.terms.roomType == v
            case SetBoard(v) => (forall n :: i < n < |patch| ==> !patch[n].SetBoard?) ==> k.terms.board == v
            case SetAdults(v) => (forall n :: i < n < |patch| ==> !patch[n].SetAdults?) ==> k.terms.adults == v
            case SetChildren(v) => (forall n :: i < n < |patch| ==> !patch[n].SetChildren?) ==> k.terms.children == v
            case SetDeadline(v) => (forall n :: i < n < |patch| ==> !patch[n].SetDeadline?) ==> k.terms.deadline == v
            case SetRefundable(v) =>
              v.Some? && (forall n :: i < n < |patch| ==> !patch[n].SetRefundable?) ==> k.terms.refundable == v.value
            case SetStatus(v) =>
              v.Some? && (forall n :: i < n < |patch| ==> !patch[n].SetStatus?) ==> k.status == v.value
  {
    var front := patch[..|patch| - 1];
    if i < |front| {
      ColumnHoldsLastValue(j, front, i);
      assert forall n :: 0 <= n < |front| ==> front[n] == patch[n];
    }
  }

  /** A column that is not assigned keeps its value. */
  lemma {:induction false} DetailsStay(j: Job, patch: seq<Assign>)
    ensures var k := Patched(j, patch);
            && ((forall n :: 0 <= n < |patch| ==> !patch[n].SetCity?) ==> k.terms.city == j.terms.city)
            && ((forall n :: 0 <= n < |patch| ==> !patch[n].SetRoomType?) ==> k.terms.roomType == j.terms.roomType)
            && ((forall n :: 0 <= n < |patch| ==> !patch[n].SetBoard?) ==> k.terms.board == j.terms.board)
            && ((forall n :: 0 <= n < |patch| ==> !patch[n].SetAdults?) ==> k.terms.adults == j.terms.adults)
            && ((forall n :: 0 <= n < |patch| ==> !patch[n].SetChildren?) ==> k.terms.children == j.terms.children)
  {
    if patch != [] {
      DetailsStay(j, patch[..|patch| - 1]);
      assert forall n :: 0 <= n < |patch| - 1 ==> patch[..|patch| - 1][n] == patch[n];
    }
  }

  lemma {:induction false} PolicyStays(j: Job, patch: seq<Assign>)
    ensures var k := Patched(j, patch);
            && ((forall n :: 0 <= n < |patch| ==> !patch[n].SetHotelId?) ==> k.hotelId == j.hotelId)
            && ((forall n :: 0 <= n < |patch| ==> !patch[n].SetDeadline?) ==> k.terms.deadline == j.terms.deadline)
            && ((forall n :: 0 <= n < |patch| ==> !patch[n].SetRefundable?) ==>
                  k.terms.refundable == j.terms.refundable)
            && ((forall n :: 0 <= n < |patch| ==> !patch[n].SetStatus?) ==> k.status == j.status)
  {
    if patch != [] {
      PolicyStays(j, patch[..|patch| - 1]);
      assert forall n :: 0 <= n < |patch| - 1 ==> patch[..|patch| - 1][n] == patch[n];
    }
  }

  /** The columns that no PATCH can assign keep theirs. */
  lemma {:induction false} OutOfReach(j: Job, patch: seq<Assign>)
    ensures var k := Patched(j, patch);
            && k.(hotelId := j.hotelId, status := j.status, terms := j.terms) == j
            && k.terms.hotelName == j.terms.hotelName && k.terms.originalPrice == j.terms.originalPrice
            && k.terms.checkIn == j.terms.checkIn && k.terms.checkOut == j.terms.checkOut
  {
    if patch != [] { OutOfReach(j, patch[..|patch| - 1]); }
  }

  /** A null for `refundable` or `status` undoes the whole PATCH. Otherwise it is
      stored, and activates the booking at its time exactly if the row is then
      pending, refundable, and has a deadline and a hotel. */
  lemma {:induction false} StoredOrRefused(j: Job, patch: seq<Assign>, when: int)
    ensures var k := Patched(j, patch);
            var complete := k.status in {PendingHotel, PendingInfo} && k.terms.refundable && k.terms.deadline.Some?
                            && k.hotelId.Some?;
            if exists n :: 0 <= n < |patch| && patch[n] in {SetRefundable(None), SetStatus(None)}
            then Updated(j, patch, when) == j && !PatchActivates(j, patch)
            else && (PatchActivates(j, patch) <==> complete)
                 && Updated(j, patch, when) == if complete then k.(status := Active, nextCheckAt := Some(when)) else k
  {
    hide Patched;
    if n :| 0 <= n < |patch| && patch[n] in {SetRefundable(None), SetStatus(None)} {
      assert !Storable(patch[n]);
    } else {
      forall n | 0 <= n < |patch|
        ensures Storable(patch[n])
      {
        assert patch[n] !in {SetRefundable(None), SetStatus(None)};
      }
    }
  }
}
