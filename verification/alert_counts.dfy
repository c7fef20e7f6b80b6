/** The alert counts of `/api/alerts`: how many call rows carry "Yes" in
    each of nine flag columns, and how many are "ideal" (the first three
    flags all "No"). */
module AlertCounts {
  import opened Wrappers
  import opened Rows

  datatype AlertFlag =
    | DisrespectfulLanguage | UnfriendlyTone | RepeatedMistakes | MissedAllergyDisclosure
    | ItemUnavailability | DiscountRequested | CouponMentioned | GuestComplaint | PriceObjection

  function FlagColumn(f: AlertFlag): string {
    match f
    case DisrespectfulLanguage => "disrespectful_language"
    case UnfriendlyTone => "unfriendly_tone"
    case RepeatedMistakes => "repeated_mistakes"
    case MissedAllergyDisclosure => "missed_allergy_disclosure"
    case ItemUnavailability => "item_unavailability"
    case DiscountRequested => "discount_requested"
    case CouponMentioned => "coupon_mentioned"
    case GuestComplaint => "guest_complaint"
    case PriceObjection => "price_objection"
  }

  /** `r[column] === answer`, strictly: only the string cell matches. */
  predicate Answers(row: Row, f: AlertFlag, answer: string) {
    Get(row, FlagColumn(f)) == Some(Str(answer))
  }

  /** The call is ideal: no disrespect, no unfriendly tone, no repeated mistake. */
  predicate Ideal(row: Row) {
    Answers(row, DisrespectfulLanguage, "No") && Answers(row, UnfriendlyTone, "No") && Answers(row, RepeatedMistakes, "No")
  }

  /** `rows.filter(r => r[FlagColumn(f)] === 'Yes').length`. */
  function CountRaised(rows: seq<Row>, f: AlertFlag): (n: nat)
    ensures n <= |rows|
    ensures n == 0 <==> forall i :: 0 <= i < |rows| ==> !Answers(rows[i], f, "Yes")
    decreases |rows|
  {
    if |rows| == 0 then 0
    else
      assert forall i :: 1 <= i < |rows| ==> rows[i] == rows[1..][i - 1];
      (if Answers(rows[0], f, "Yes") then 1 else 0) + CountRaised(rows[1..], f)
  }

  /** The `ideal_conversations` count. */
  function CountIdeal(rows: seq<Row>): (n: nat)
    ensures n <= |rows|
    ensures n == |rows| <==> forall i :: 0 <= i < |rows| ==> Ideal(rows[i])
    decreases |rows|
  {
    if |rows| == 0 then 0
    else
      assert forall i :: 1 <= i < |rows| ==> rows[i] == rows[1..][i - 1];
      (if Ideal(rows[0]) then 1 else 0) + CountIdeal(rows[1..])
  }

  /** The positions of the calls that answer "Yes" to `f`. */
  function RaisedAt(rows: seq<Row>, f: AlertFlag): set<nat> {
    set i: nat | i < |rows| && Answers(rows[i], f, "Yes")
  }

  /** The positions of the ideal calls. */
  function IdealAt(rows: seq<Row>): set<nat> {
    set i: nat | i < |rows| && Ideal(rows[i])
  }

  /** Counting a concatenation counts each part. */
  lemma {:induction false} CountRaisedAppend(a: seq<Row>, b: seq<Row>, f: AlertFlag)
    ensures CountRaised(a + b, f) == CountRaised(a, f) + CountRaised(b, f)
    decreases |a|
  {
    if |a| > 0 {
      var ab := a + b;
      assert ab[0] == a[0];
      assert ab[1..] == a[1..] + b;
      CountRaisedAppend(a[1..], b, f);
    } else {
      assert a + b == b;
    }
  }

  lemma {:induction false} CountIdealAppend(a: seq<Row>, b: seq<Row>)
    ensures CountIdeal(a + b) == CountIdeal(a) + CountIdeal(b)
    decreases |a|
  {
    if |a| > 0 {
      var ab := a + b;
      assert ab[0] == a[0];
      assert ab[1..] == a[1..] + b;
      CountIdealAppend(a[1..], b);
    } else {
      assert a + b == b;
    }
  }

  /** The positions in a table are those of all but its last row, and the
      last position when that row qualifies. */
  lemma RaisedAtLast(rows: seq<Row>, f: AlertFlag)
    requires |rows| > 0
    ensures RaisedAt(rows, f) ==
      RaisedAt(rows[..|rows| - 1], f) + (if Answers(rows[|rows| - 1], f, "Yes") then {|rows| - 1} else {})
  {
    var n := |rows| - 1;
    assert forall i :: 0 <= i < n ==> rows[..n][i] == rows[i];
  }

  lemma IdealAtLast(rows: seq<Row>)
    requires |rows| > 0
    ensures IdealAt(rows) ==
      IdealAt(rows[..|rows| - 1]) + (if Ideal(rows[|rows| - 1]) then {|rows| - 1} else {})
  {
    var n := |rows| - 1;
    assert forall i :: 0 <= i < n ==> rows[..n][i] == rows[i];
  }

  /** The flag count is exactly the number of calls answering "Yes". */
  lemma {:induction false} CountRaisedExact(rows: seq<Row>, f: AlertFlag)
    ensures CountRaised(rows, f) == |RaisedAt(rows, f)|
    decreases |rows|
  {
    if |rows| > 0 {
      var n := |rows| - 1;
      var init := rows[..n];
      assert rows == init + [rows[n]];
      CountRaisedAppend(init, [rows[n]], f);
      CountRaisedExact(init, f);
      RaisedAtLast(rows, f);
      assert n !in RaisedAt(init, f);
    } else {
      assert RaisedAt(rows, f) == {};
    }
  }

  /** The ideal count is exactly the number of ideal calls. */
  lemma {:induction false} CountIdealExact(rows: seq<Row>)
    ensures CountIdeal(rows) == |IdealAt(rows)|
    decreases |rows|
  {
    if |rows| > 0 {
      var n := |rows| - 1;
      var init := rows[..n];
      assert rows == init + [rows[n]];
      CountIdealAppend(init, [rows[n]]);
      CountIdealExact(init);
      IdealAtLast(rows);
      assert n !in IdealAt(init);
    } else {
      assert IdealAt(rows) == {};
    }
  }

  /** One of the three flags that decide whether a call is ideal. */
  predicate IdealDeciding(f: AlertFlag) {
    f == DisrespectfulLanguage || f == UnfriendlyTone || f == RepeatedMistakes
  }

  /** An ideal call never raises a deciding flag, so the two counts never overlap. */
  lemma {:induction false} IdealAndRaisedDisjoint(rows: seq<Row>, f: AlertFlag)
    requires IdealDeciding(f)
    ensures CountIdeal(rows) + CountRaised(rows, f) <= |rows|
    decreases |rows|
  {
    if |rows| > 0 {
      IdealAndRaisedDisjoint(rows[1..], f);
    }
  }

  datatype CountKey = Raised(flag: AlertFlag) | IdealConversations

  /** The JSON property name of a count. */
  function CountName(k: CountKey): string {
    match k
    case Raised(f) => FlagColumn(f)
    case IdealConversations => "ideal_conversations"
  }

  /** The ten counts, in the order of the response object. */
  const CountKeys: seq<CountKey> := [
    Raised(DisrespectfulLanguage), Raised(UnfriendlyTone), Raised(RepeatedMistakes),
    Raised(MissedAllergyDisclosure), Raised(ItemUnavailability), Raised(DiscountRequested),
    Raised(CouponMentioned), Raised(GuestComplaint), Raised(PriceObjection), IdealConversations]

  lemma CountKeyListed(k: CountKey)
    ensures k in CountKeys
  {
    match k {
      case IdealConversations =>
      case Raised(f) =>
        match f {
          case DisrespectfulLanguage => assert CountKeys[0] == k;
          case UnfriendlyTone => assert CountKeys[1] == k;
          case RepeatedMistakes => assert CountKeys[2] == k;
          case MissedAllergyDisclosure => assert CountKeys[3] == k;
          case ItemUnavailability => assert CountKeys[4] == k;
          case DiscountRequested => assert CountKeys[5] == k;
          case CouponMentioned => assert CountKeys[6] == k;
          case GuestComplaint => assert CountKeys[7] == k;
          case PriceObjection => assert CountKeys[8] == k;
        }
    }
  }

  /** The count reported under one key. */
  function CountOf(rows: seq<Row>, k: CountKey): (n: nat)
    ensures n <= |rows|
    ensures k.Raised? ==> (n == 0 <==> forall i :: 0 <= i < |rows| ==> !Answers(rows[i], k.flag, "Yes"))
    ensures k.IdealConversations? ==> (n == |rows| <==> forall i :: 0 <= i < |rows| ==> Ideal(rows[i]))
    ensures k.Raised? ==> n == |RaisedAt(rows, k.flag)|
    ensures k.IdealConversations? ==> n == |IdealAt(rows)|
  {
    match k
    case Raised(f) => CountRaisedExact(rows, f); CountRaised(rows, f)
    case IdealConversations => CountIdealExact(rows); CountIdeal(rows)
  }

  /** The `counts` object: one count per key, none above the number of calls. */
  function Counts(rows: seq<Row>): (c: map<CountKey, nat>)
    ensures forall k: CountKey :: k in c && c[k] <= |rows|
    ensures forall k: CountKey :: k in c && c[k] == CountOf(rows, k)
  {
    assert forall k: CountKey :: k in CountKeys by {
      forall k: CountKey ensures k in CountKeys {
        CountKeyListed(k);
      }
    }
    map k | k in CountKeys :: CountOf(rows, k)
  }
}
