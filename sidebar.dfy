/**
  * The sidebar's view of the stored measurements: rating coercion and the
  * score, the newest-first list of every record, the favourites list and
  * the request that the favourite toggle sends.
  */
module Sidebar {
  import opened JsValues
  import opened JsNumbers
  import opened Storage

  /** `toRatingNumber(value)`: a number that is not NaN as it is; anything
      else through `Number(value)`, with NaN read as 0. The result is a real,
      so it is never NaN. */
  function ToRatingNumber(value: JsValue): (n: real)
    ensures value.Num? && value.n.Finite? ==> n == value.n.r
    ensures ToNumber(value).NaN? ==> n == 0.0
  {
    if value.Num? && value.n.Finite? then value.n.r
    else
      var parsed := ToNumber(value);
      if parsed.NaN? then 0.0 else parsed.r
  }

  /** The first branch of toRatingNumber is a shortcut: every input gets
      what `Number(value)` gives, or 0 when that is NaN. */
  lemma RatingIsNumberOrZero(value: JsValue)
    ensures ToRatingNumber(value) == (if ToNumber(value).Finite? then ToNumber(value).r else 0.0)
  {
  }

  /** A missing rating, `null` and `false` all count as 0, `true` as 1. */
  lemma RatingOfNonNumbers()
    ensures ToRatingNumber(Undefined) == 0.0 && ToRatingNumber(Null) == 0.0
    ensures ToRatingNumber(Bool(false)) == 0.0 && ToRatingNumber(Bool(true)) == 1.0
  {
  }

  /** A rating as a number: what `Number(value)` gives, or 0 for NaN. */
  function NumberOrZero(value: JsValue): real
  {
    if ToNumber(value).Finite? then ToNumber(value).r else 0.0
  }

  /** `calculateScore(measurement)`: the sum of the four ratings, each read
      as a number with NaN counting 0. */
  function CalculateScore(m: Record): (score: real)
    ensures score == NumberOrZero(Field(m, "bass")) + NumberOrZero(Field(m, "treble"))
      + NumberOrZero(Field(m, "vocals")) + NumberOrZero(Field(m, "soundstage"))
  {
    ToRatingNumber(Field(m, "bass")) + ToRatingNumber(Field(m, "treble"))
    + ToRatingNumber(Field(m, "vocals")) + ToRatingNumber(Field(m, "soundstage"))
  }

  /** With four numeric ratings, the score is their sum. */
  lemma ScoreOfNumericRatings(m: Record, bass: real, treble: real, vocals: real, soundstage: real)
    requires Field(m, "bass") == Num(Finite(bass)) && Field(m, "treble") == Num(Finite(treble))
    requires Field(m, "vocals") == Num(Finite(vocals)) && Field(m, "soundstage") == Num(Finite(soundstage))
    ensures CalculateScore(m) == bass + treble + vocals + soundstage
  {
  }

  /** A record without ratings scores 0. */
  lemma ScoreWithoutRatings(m: Record)
    requires "bass" !in m && "treble" !in m && "vocals" !in m && "soundstage" !in m
    ensures CalculateScore(m) == 0.0
  {
  }

  /** Only the four rating fields take part in the score. */
  lemma ScoreIgnoresOtherFields(m: Record, key: string, value: JsValue)
    requires key != "bass" && key != "treble" && key != "vocals" && key != "soundstage"
    ensures CalculateScore(m[key := value]) == CalculateScore(m)
  {
    assert Field(m[key := value], "bass") == Field(m, "bass");
    assert Field(m[key := value], "treble") == Field(m, "treble");
    assert Field(m[key := value], "vocals") == Field(m, "vocals");
    assert Field(m[key := value], "soundstage") == Field(m, "soundstage");
  }

  /** `s.slice().reverse()`. */
  function Reverse(s: seq<Record>): (r: seq<Record>)
    ensures |r| == |s|
    ensures forall i :: 0 <= i < |s| ==> r[i] == s[|s| - 1 - i]
  {
    if s == [] then [] else Reverse(s[1..]) + [s[0]]
  }

  /** Reversing a concatenation reverses the parts and swaps them. */
  lemma ReverseAppend(a: seq<Record>, b: seq<Record>)
    ensures Reverse(a + b) == Reverse(b) + Reverse(a)
  {
    assert |Reverse(a + b)| == |Reverse(b) + Reverse(a)|;
    forall i | 0 <= i < |a| + |b| ensures Reverse(a + b)[i] == (Reverse(b) + Reverse(a))[i] {
      if i < |b| {
        assert (Reverse(b) + Reverse(a))[i] == Reverse(b)[i];
      } else {
        assert (Reverse(b) + Reverse(a))[i] == Reverse(a)[i - |b|];
      }
    }
  }

  /** `m.isFavorite` is truthy. */
  predicate IsFavourite(m: Record)
  {
    Truthy(Field(m, "isFavorite"))
  }

  /** `measurements.filter((m) => m.isFavorite)`. */
  function FavouriteRecords(s: seq<Record>): seq<Record>
  {
    if s == [] then []
    else (if IsFavourite(s[0]) then [s[0]] else []) + FavouriteRecords(s[1..])
  }

  /** Filtering a list with one more record at its end. */
  lemma {:induction false} FavouriteRecordsSnoc(s: seq<Record>, m: Record)
    ensures FavouriteRecords(s + [m]) == FavouriteRecords(s) + (if IsFavourite(m) then [m] else [])
  {
    if s == [] {
      assert s + [m] == [m];
      assert [m][1..] == [];
    } else {
      FavouriteRecordsSnoc(s[1..], m);
      assert (s + [m])[0] == s[0] && (s + [m])[1..] == s[1..] + [m];
      var head := if IsFavourite(s[0]) then [s[0]] else [];
      var last := if IsFavourite(m) then [m] else [];
      assert FavouriteRecords(s + [m]) == head + (FavouriteRecords(s[1..]) + last);
      assert head + (FavouriteRecords(s[1..]) + last) == (head + FavouriteRecords(s[1..])) + last;
    }
  }

  /** The "All Stored Values" list: newest first. */
  function AllStoredList(measurements: seq<Record>): (shown: seq<Record>)
    ensures |shown| == |measurements|
    ensures forall i :: 0 <= i < |shown| ==> shown[i] == measurements[|measurements| - 1 - i]
  {
    Reverse(measurements)
  }

  /** The favourites list: the favourites, newest first. */
  function FavouritesList(measurements: seq<Record>): seq<Record>
  {
    Reverse(FavouriteRecords(measurements))
  }

  /** The favourites section is rendered only when the list is non-empty. */
  predicate FavouritesShown(measurements: seq<Record>)
  {
    |measurements| > 0 && |FavouriteRecords(measurements)| > 0
  }

  /** The favourites list holds exactly the records with a truthy isFavorite. */
  lemma {:induction false} FavouritesMembers(measurements: seq<Record>)
    ensures forall m :: m in FavouritesList(measurements) <==> m in measurements && IsFavourite(m)
  {
    FavouriteRecordsMembers(measurements);
    var f := FavouriteRecords(measurements);
    forall m ensures m in Reverse(f) <==> m in f {
      if m in f {
        var i :| 0 <= i < |f| && f[i] == m;
        assert Reverse(f)[|f| - 1 - i] == m;
      }
    }
  }

  lemma {:induction false} FavouriteRecordsMembers(s: seq<Record>)
    ensures forall m :: m in FavouriteRecords(s) <==> m in s && IsFavourite(m)
  {
    if s != [] {
      FavouriteRecordsMembers(s[1..]);
      assert s == [s[0]] + s[1..];
    }
  }

  /** The favourites list is the all-list filtered: same newest-first order. */
  lemma {:induction false} FavouritesOfAllList(measurements: seq<Record>)
    ensures FavouritesList(measurements) == FavouriteRecords(AllStoredList(measurements))
  {
    if measurements != [] {
      var m, rest := measurements[0], measurements[1..];
      FavouritesOfAllList(rest);
      var head := if IsFavourite(m) then [m] else [];
      calc {
        FavouritesList(measurements);
        Reverse(head + FavouriteRecords(rest));
        { ReverseAppend(head, FavouriteRecords(rest)); }
        Reverse(FavouriteRecords(rest)) + Reverse(head);
        { assert Reverse(head) == head; }
        FavouriteRecords(Reverse(rest)) + head;
        { FavouriteRecordsSnoc(Reverse(rest), m); }
        FavouriteRecords(Reverse(rest) + [m]);
        { assert Reverse(measurements) == Reverse(rest) + [m]; }
        FavouriteRecords(AllStoredList(measurements));
      }
    }
  }

  /** A filter of a list is a subsequence of it. */
  lemma {:induction false} FavouriteRecordsIsSubsequence(s: seq<Record>)
    ensures IsSubsequence(FavouriteRecords(s), s)
  {
    if s != [] {
      FavouriteRecordsIsSubsequence(s[1..]);
      var rest := FavouriteRecords(s[1..]);
      if IsFavourite(s[0]) {
        var kept := [s[0]] + rest;
        assert FavouriteRecords(s) == kept;
        assert kept[0] == s[0] && kept[1..] == rest;
      } else {
        assert FavouriteRecords(s) == rest;
      }
    }
  }

  /** Every favourites card also appears in the all-list, in the same order. */
  lemma FavouritesSubsequenceOfAll(measurements: seq<Record>)
    ensures IsSubsequence(FavouritesList(measurements), AllStoredList(measurements))
  {
    FavouritesOfAllList(measurements);
    FavouriteRecordsIsSubsequence(AllStoredList(measurements));
  }

  /** The favourites section appears exactly when some record is a favourite. */
  lemma FavouritesShownWhenAny(measurements: seq<Record>)
    ensures FavouritesShown(measurements) <==> exists i :: 0 <= i < |measurements| && IsFavourite(measurements[i])
  {
    FavouriteRecordsMembers(measurements);
    if FavouritesShown(measurements) {
      var f := FavouriteRecords(measurements);
      assert f[0] in f;
    }
    if i :| 0 <= i < |measurements| && IsFavourite(measurements[i]) {
      assert measurements[i] in FavouriteRecords(measurements);
    }
  }

  /** The favourite toggle's `updateMeasurement({id, updates})` argument. */
  function ToggleRequest(m: Record): (request: (JsValue, Record))
    ensures request.0 == Field(m, "id")
    ensures request.1.Keys == {"isFavorite"}
    ensures IsFavourite(request.1) == !IsFavourite(m)
  {
    (Field(m, "id"), map["isFavorite" := Bool(!IsFavourite(m))])
  }

  /** Applied as a merge-update to a list in which record `i` is the first
      with its id, the toggle flips that record's favourite flag, keeps its
      other fields and leaves every other record as it was. */
  lemma ToggleFlipsOneRecord(records: seq<Record>, i: nat)
    requires i < |records|
    requires FindIndex(records, Field(records[i], "id")) == i
    ensures var (id, updates) := ToggleRequest(records[i]);
      var after := Updated(records, id, updates);
      && |after| == |records|
      && IsFavourite(after[i]) == !IsFavourite(records[i])
      && (forall k :: k in records[i] && k != "isFavorite" ==> after[i][k] == records[i][k])
      && (forall j :: 0 <= j < |records| && j != i ==> after[j] == records[j])
  {
  }

  /** Ids are creation timestamps, so two records can share one. When the
      first record with the id of record `i` is an earlier one, the toggle
      on `i` lands on that earlier record, setting its flag to the
      negation of record `i`'s, and record `i` keeps its own. An id that
      is not equal to itself (NaN) matches no record, and the list is left
      as it was. */
  lemma ToggleWithEarlierDuplicate(records: seq<Record>, i: nat)
    requires i < |records|
    requires FindIndex(records, Field(records[i], "id")) != i
    ensures var (id, updates) := ToggleRequest(records[i]);
      var after := Updated(records, id, updates);
      var first := FindIndex(records, id);
      && first < i
      && (first == -1 ==> after == records)
      && (first >= 0 ==> after[i] == records[i] && IsFavourite(after[first]) == !IsFavourite(records[i]))
  {
    var id := Field(records[i], "id");
    var first := FindIndex(records, id);
    if !HasId(records[i], id) && first >= 0 {
      MatchesNothing(Field(records[first], "id"), id);
    }
  }

  /** A value that is not strictly equal to itself equals nothing. */
  lemma MatchesNothing(a: JsValue, b: JsValue)
    requires !StrictEquals(b, b)
    ensures !StrictEquals(a, b)
  {
  }
}
