/**
 * The records the server sends (activities, users, donations), the values a
 * page gets from JavaScript's `Number(...)` and `new Date(...)`, and the pure
 * list computations several pages share: removing by id, summing amounts,
 * counting statuses, and the funding progress of an activity.
 */
module Entities {
  import opened Wrappers

  /** `Number(text)`: a double, or NaN when the text does not parse. Amounts
      are taken as exact reals. */
  datatype JsNumber = NaN | Num(value: real)

  /** `!text || isNaN(Number(text)) || Number(text) <= 0` is false: the text is
      non-empty and parses as a positive number. */
  predicate PositiveNumber(text: string, n: JsNumber) {
    text != "" && n.Num? && n.value > 0.0
  }

  /** `new Date(text)`: a time in milliseconds, or the invalid date. */
  datatype JsDate = InvalidDate | Time(ms: int)

  /** `a < b` on two dates: false as soon as one of them is invalid, since the
      comparison is then on NaN. */
  predicate DateBefore(a: JsDate, b: JsDate) {
    a.Time? && b.Time? && a.ms < b.ms
  }

  datatype Status = Open | Closed

  datatype Role = UserRole | AdminRole

  datatype Creator = Creator(id: string, firstName: string, lastName: string)

  datatype Activity = Activity(
    id: string,
    creator: Option<Creator>,
    name: string,
    description: string,
    goalAmount: real,
    totalDonations: real,
    status: Status,
    endAt: string,
    image: Option<string>)

  datatype User = User(id: string, firstName: string, lastName: string, email: string, role: Role)

  datatype Donation = Donation(id: string, donor: Creator, activityId: string, activityName: string, amount: real)

  function ActivityId(a: Activity): string { a.id }

  function UserId(u: User): string { u.id }

  /** `items.filter(x => x._id !== id)` */
  function WithoutId<T>(items: seq<T>, idOf: T -> string, id: string): (r: seq<T>)
    ensures |r| <= |items|
    ensures forall k :: 0 <= k < |r| ==> idOf(r[k]) != id
    ensures forall k :: 0 <= k < |r| ==> r[k] in items
    ensures forall k :: 0 <= k < |items| && idOf(items[k]) != id ==> items[k] in r
  {
    if items == [] then []
    else if idOf(items[0]) == id then WithoutId(items[1..], idOf, id)
    else [items[0]] + WithoutId(items[1..], idOf, id)
  }

  /** Filtering keeps the order: it works piece by piece. */
  lemma {:induction false} WithoutIdAppend<T>(a: seq<T>, b: seq<T>, idOf: T -> string, id: string)
    ensures WithoutId(a + b, idOf, id) == WithoutId(a, idOf, id) + WithoutId(b, idOf, id)
    decreases |a|
  {
    if a != [] {
      var ab := a + b;
      assert ab[0] == a[0] && ab[1..] == a[1..] + b;
      WithoutIdAppend(a[1..], b, idOf, id);
    } else {
      assert a + b == b;
    }
  }

  /** A list without the id is left as it is, so removing twice is removing once. */
  lemma {:induction false} WithoutIdAbsent<T>(items: seq<T>, idOf: T -> string, id: string)
    requires forall k :: 0 <= k < |items| ==> idOf(items[k]) != id
    ensures WithoutId(items, idOf, id) == items
  {
    if items != [] {
      WithoutIdAbsent(items[1..], idOf, id);
    }
  }

  lemma WithoutIdIdempotent<T>(items: seq<T>, idOf: T -> string, id: string)
    ensures WithoutId(WithoutId(items, idOf, id), idOf, id) == WithoutId(items, idOf, id)
  {
    WithoutIdAbsent(WithoutId(items, idOf, id), idOf, id);
  }

  /** Removing an id that occurs once takes out exactly that entry, keeping the rest in order. */
  lemma RemoveSingle<T>(before: seq<T>, x: T, after: seq<T>, idOf: T -> string)
    requires forall k :: 0 <= k < |before| ==> idOf(before[k]) != idOf(x)
    requires forall k :: 0 <= k < |after| ==> idOf(after[k]) != idOf(x)
    ensures WithoutId(before + [x] + after, idOf, idOf(x)) == before + after
  {
    var id := idOf(x);
    var wx := WithoutId([x], idOf, id);
    assert wx == [] by {
      assert [x][1..] == [];
    }
    WithoutIdAppend(before, [x], idOf, id);
    WithoutIdAbsent(before, idOf, id);
    WithoutIdAbsent(after, idOf, id);
    assert WithoutId(before + [x], idOf, id) == before;
    WithoutIdAppend(before + [x], after, idOf, id);
  }

  /** `donations.reduce((sum, d) => sum + d.amount, 0)` */
  function TotalAmount(ds: seq<Donation>): real
  {
    if ds == [] then 0.0 else TotalAmount(ds[..|ds| - 1]) + ds[|ds| - 1].amount
  }

  /** The sum splits over a concatenation, so it does not depend on how the
      list is cut. */
  lemma {:induction false} TotalAmountAppend(a: seq<Donation>, b: seq<Donation>)
    ensures TotalAmount(a + b) == TotalAmount(a) + TotalAmount(b)
    decreases |b|
  {
    if b == [] {
      assert a + b == a;
    } else {
      var c := a + b;
      assert c[..|c| - 1] == a + b[..|b| - 1];
      TotalAmountAppend(a, b[..|b| - 1]);
    }
  }

  /** With positive amounts, the total is positive once one donation is there. */
  lemma {:induction false} TotalAmountPositive(ds: seq<Donation>)
    requires forall k :: 0 <= k < |ds| ==> ds[k].amount > 0.0
    ensures ds == [] ==> TotalAmount(ds) == 0.0
    ensures ds != [] ==> TotalAmount(ds) > 0.0
  {
    if ds != [] {
      TotalAmountPositive(ds[..|ds| - 1]);
    }
  }

  /** `acts.filter(a => a.status === s).length` */
  function CountStatus(acts: seq<Activity>, s: Status): (n: nat)
    ensures n <= |acts|
  {
    if acts == [] then 0
    else (if acts[0].status == s then 1 else 0) + CountStatus(acts[1..], s)
  }

  /** Every status is open or closed, so the two counts make up the whole list. */
  lemma {:induction false} OpenPlusClosed(acts: seq<Activity>)
    ensures CountStatus(acts, Open) + CountStatus(acts, Closed) == |acts|
  {
    if acts != [] {
      OpenPlusClosed(acts[1..]);
    }
  }

  /** `(totalDonations / goalAmount) * 100`: the funded percentage. */
  function ProgressPercent(a: Activity): real
    requires a.goalAmount > 0.0
  {
    a.totalDonations / a.goalAmount * 100.0
  }

  /** `Math.min(progress, 100)`: the width of the progress bar, in percent. */
  function BarWidth(a: Activity): (w: real)
    requires a.goalAmount > 0.0
    ensures w <= 100.0 && w <= ProgressPercent(a)
    ensures w == 100.0 || w == ProgressPercent(a)
  {
    var p := ProgressPercent(a);
    if p < 100.0 then p else 100.0
  }

  /** The bar is full exactly when the goal is reached; below it, the bar
      shows the percentage itself. */
  lemma BarFullIffGoalReached(a: Activity)
    requires a.goalAmount > 0.0
    ensures BarWidth(a) == 100.0 <==> a.totalDonations >= a.goalAmount
    ensures a.totalDonations < a.goalAmount ==> BarWidth(a) == ProgressPercent(a)
  {
    var g, t := a.goalAmount, a.totalDonations;
    assert ProgressPercent(a) * g == t * 100.0;
    if t >= g {
      assert ProgressPercent(a) * g >= g * 100.0;
    } else {
      assert ProgressPercent(a) * g < g * 100.0;
    }
  }
}
