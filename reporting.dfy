/** The incident-report form's submit handler: it validates the form, builds a
    new disaster record and pushes it onto the shared `disasters` array. The
    clock read `new Date().toISOString()` is the `now` parameter, and
    parseFloat's result for the two coordinate fields is an Option<real>
    whose None stands for NaN. */
module Reporting {
  import opened Text
  import opened Incidents

  /** The report form's values after parseFloat on the coordinates. */
  datatype Report = Report(
    kind: string,
    severity: string,
    location: string,
    lat: Option<real>,
    lng: Option<real>,
    description: string)

  /** The required-fields check: no text field empty and no coordinate NaN. */
  predicate IsComplete(r: Report)
  {
    r.kind != "" && r.severity != "" && r.location != "" &&
    r.lat.Some? && r.lng.Some? && r.description != ""
  }

  /** `'D' + n.toString().padStart(3, '0')`. */
  function FormatId(n: nat): (id: string)
    ensures |id| >= 4 && id[0] == 'D'
    ensures AllDigits(id[1..])
  {
    "D" + PadStart(Decimal(n), 3, '0')
  }

  /** The digits after the 'D' read back as the number they were made from. */
  lemma FormatIdRoundTrip(n: nat)
    ensures ParseDecimal(FormatId(n)[1..]) == n
  {
    var digits := Decimal(n);
    var padded := PadStart(digits, 3, '0');
    assert FormatId(n)[1..] == padded;
    var zeros := padded[..|padded| - |digits|];
    assert padded == zeros + digits;
    ParseIgnoresLeadingZeros(zeros, digits);
    DecimalRoundTrip(n);
  }

  /** Different numbers give different identifiers. */
  lemma FormatIdInjective(m: nat, n: nat)
    requires m != n
    ensures FormatId(m) != FormatId(n)
  {
    FormatIdRoundTrip(m);
    FormatIdRoundTrip(n);
  }

  /** The record that a complete report adds when the array holds `count`
      records: title "<Type> in <location>", timestamp `now`, 0 affected and
      status 'reported'. */
  function NewDisaster(count: nat, r: Report, now: string): (d: Disaster)
    requires IsComplete(r)
    ensures d.id == FormatId(count + 1)
    ensures |d.id| >= 4 && d.id[0] == 'D' && AllDigits(d.id[1..])
    ensures ParseDecimal(d.id[1..]) == count + 1
    ensures d.status == "reported" && d.affected == 0 && d.reported == now
    ensures d.kind == r.kind && d.severity == r.severity && d.location == r.location
    ensures d.description == r.description && d.lat == r.lat.value && d.lng == r.lng.value
    ensures d.title == Capitalize(r.kind) + " in " + r.location
  {
    FormatIdRoundTrip(count + 1);
    Disaster(
      FormatId(count + 1),
      r.lat.value,
      r.lng.value,
      r.kind,
      r.severity,
      Capitalize(r.kind) + " in " + r.location,
      r.description,
      r.location,
      now,
      0,
      "reported")
  }

  /** Every record's identifier is the one the handler gives the record at
      its position: D001, D002, ... */
  predicate NumberedInOrder(ds: seq<Disaster>)
  {
    forall i :: 0 <= i < |ds| ==> ds[i].id == FormatId(i + 1)
  }

  /** Records numbered in order have pairwise distinct identifiers. */
  lemma NumberedIdsDistinct(ds: seq<Disaster>)
    requires NumberedInOrder(ds)
    ensures forall i, j :: 0 <= i < j < |ds| ==> ds[i].id != ds[j].id
  {
    forall i, j | 0 <= i < j < |ds|
      ensures ds[i].id != ds[j].id
    {
      FormatIdInjective(i + 1, j + 1);
    }
  }

  /** The identifier the handler gives the next record is fresh among
      records numbered in order, and appending that record keeps the numbering. */
  lemma NextIdIsFresh(ds: seq<Disaster>, d: Disaster)
    requires NumberedInOrder(ds)
    requires d.id == FormatId(|ds| + 1)
    ensures forall i :: 0 <= i < |ds| ==> ds[i].id != d.id
    ensures NumberedInOrder(ds + [d])
  {
    forall i | 0 <= i < |ds|
      ensures ds[i].id != d.id
    {
      FormatIdInjective(i + 1, |ds| + 1);
    }
  }

  /** The shape of every identifier: 'D', then zeros up to three digits,
      then the decimal form of the number in full. */
  lemma FormatIdShape(n: nat)
    ensures var digits, id := Decimal(n), FormatId(n);
      && |id| == 1 + (if |digits| >= 3 then |digits| else 3)
      && id[0] == 'D'
      && id[|id| - |digits|..] == digits
      && forall i :: 1 <= i < |id| - |digits| ==> id[i] == '0'
  {
  }

  /** Short numbers are padded to three digits. */
  lemma FormatIdPads()
    ensures FormatId(9) == "D009"
  {
    FormatIdShape(9);
  }

  /** Numbers past three digits are written out in full. */
  lemma FormatIdDoesNotTruncate()
    ensures FormatId(1000) == "D1000"
  {
    FormatIdShape(1000);
  }

  /** The sample records are numbered D001 to D008, so the first report gets D009. */
  lemma SeedNumberedInOrder()
    ensures NumberedInOrder(Seed)
  {
    forall i | 0 <= i < |Seed|
      ensures Seed[i].id == FormatId(i + 1)
    {
      assert Decimal(i + 1) == [DigitChar(i + 1)];
      assert PadStart([DigitChar(i + 1)], 3, '0') == "00" + [DigitChar(i + 1)];
    }
  }

  /** The part of the page that owns the shared `disasters` array. */
  class Dashboard {
    var disasters: seq<Disaster>

    /** The page loads with the sample records. */
    constructor ()
      ensures disasters == Seed
      ensures NumberedInOrder(disasters)
    {
      disasters := Seed;
      SeedNumberedInOrder();
    }

    /** The submit handler: an incomplete report changes nothing; a complete
        one appends exactly one new record and keeps every earlier record. */
    method Submit(r: Report, now: string) returns (accepted: bool)
      modifies this
      ensures accepted <==> IsComplete(r)
      ensures !accepted ==> disasters == old(disasters)
      ensures accepted ==> disasters == old(disasters) + [NewDisaster(|old(disasters)|, r, now)]
      ensures NumberedInOrder(old(disasters)) ==> NumberedInOrder(disasters)
    {
      if !IsComplete(r) {
        return false;
      }
      var d := NewDisaster(|disasters|, r, now);
      if NumberedInOrder(disasters) {
        NextIdIsFresh(disasters, d);
      }
      disasters := disasters + [d];
      accepted := true;
    }
  }
}
