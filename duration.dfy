/** `formatDuration` of the password-search tool: a whole number of seconds
    (the estimated time remaining) rendered as weeks, days, hours, minutes and
    seconds, naming only the units that are non-zero. */
module Duration {
  import opened GoInt
  import opened GoFmt
  import opened GoStrings

  const SecondsPerMinute := 60
  const SecondsPerHour := 3600
  const SecondsPerDay := 24 * 3600
  const SecondsPerWeek := 7 * 24 * 3600

  /** The five units, in the order the formatter writes them. */
  datatype Unit = Weeks | Days | Hours | Minutes | Seconds

  /** The word written after a count; always plural, as in "1 days". */
  function UnitName(u: Unit): string {
    match u
    case Weeks => "weeks"
    case Days => "days"
    case Hours => "hours"
    case Minutes => "minutes"
    case Seconds => "seconds"
  }

  function UnitSeconds(u: Unit): nat {
    match u
    case Weeks => SecondsPerWeek
    case Days => SecondsPerDay
    case Hours => SecondsPerHour
    case Minutes => SecondsPerMinute
    case Seconds => 1
  }

  /** Position of a unit in the output: larger units come first. */
  function Rank(u: Unit): nat {
    match u
    case Weeks => 0
    case Days => 1
    case Hours => 2
    case Minutes => 3
    case Seconds => 4
  }

  /** The five counts the formatter computes before writing anything. */
  datatype Breakdown = Breakdown(weeks: int, days: int, hours: int, minutes: int, seconds: int)

  function Amount(b: Breakdown, u: Unit): int {
    match u
    case Weeks => b.weeks
    case Days => b.days
    case Hours => b.hours
    case Minutes => b.minutes
    case Seconds => b.seconds
  }

  /** The number of seconds a breakdown stands for. */
  function Total(b: Breakdown): int {
    b.weeks * SecondsPerWeek + b.days * SecondsPerDay + b.hours * SecondsPerHour
      + b.minutes * SecondsPerMinute + b.seconds
  }

  /** Every count below a week stays strictly inside its radix (7 days,
      24 hours, 60 minutes, 60 seconds), whatever its sign. */
  predicate WithinRadix(b: Breakdown) {
    -7 < b.days < 7 && -24 < b.hours < 24 && -60 < b.minutes < 60 && -60 < b.seconds < 60
  }

  predicate AllNonNegative(b: Breakdown) {
    b.weeks >= 0 && b.days >= 0 && b.hours >= 0 && b.minutes >= 0 && b.seconds >= 0
  }

  predicate AllNonPositive(b: Breakdown) {
    b.weeks <= 0 && b.days <= 0 && b.hours <= 0 && b.minutes <= 0 && b.seconds <= 0
  }

  /** The mixed-radix split with Go's truncating `/` and `%`: the counts sum
      back to the input, stay inside their radix, and share the input's sign,
      so a negative input has no positive count. */
  function Decompose(s: int): (b: Breakdown)
    ensures Total(b) == s
    ensures WithinRadix(b)
    ensures s >= 0 ==> AllNonNegative(b)
    ensures s <= 0 ==> AllNonPositive(b)
  {
    var weeks, r1 := Quot(s, SecondsPerWeek), Rem(s, SecondsPerWeek);
    var days, r2 := Quot(r1, SecondsPerDay), Rem(r1, SecondsPerDay);
    var hours, r3 := Quot(r2, SecondsPerHour), Rem(r2, SecondsPerHour);
    var minutes, r4 := Quot(r3, SecondsPerMinute), Rem(r3, SecondsPerMinute);
    TruncatedDivision(s, SecondsPerWeek);
    TruncatedDivision(r1, SecondsPerDay);
    TruncatedDivision(r2, SecondsPerHour);
    TruncatedDivision(r3, SecondsPerMinute);
    assert s == weeks * SecondsPerWeek + r1 && r1 == days * SecondsPerDay + r2;
    assert r2 == hours * SecondsPerHour + r3 && r3 == minutes * SecondsPerMinute + r4;
    Breakdown(weeks, days, hours, minutes, r4)
  }

  /** The split is the only one with these properties: any breakdown that sums
      to `s`, stays inside its radix and has the sign of `s` is `Decompose(s)`. */
  lemma DecomposeUnique(s: int, b: Breakdown)
    requires Total(b) == s && WithinRadix(b)
    requires s >= 0 ==> AllNonNegative(b)
    requires s <= 0 ==> AllNonPositive(b)
    ensures b == Decompose(s)
  {
    BreakdownUnique(b, Decompose(s));
  }

  /** Two breakdowns of the same total, both inside their radix and of one sign,
      are the same breakdown. */
  lemma BreakdownUnique(b: Breakdown, d: Breakdown)
    requires Total(b) == Total(d) && WithinRadix(b) && WithinRadix(d)
    requires (AllNonNegative(b) && AllNonNegative(d)) || (AllNonPositive(b) && AllNonPositive(d))
    ensures b == d
  {
    BelowBounds(b);
    BelowBounds(d);
    DigitUnique(b.weeks, BelowWeek(b), d.weeks, BelowWeek(d), SecondsPerWeek);
    DigitUnique(b.days, BelowDay(b), d.days, BelowDay(d), SecondsPerDay);
    DigitUnique(b.hours, BelowHour(b), d.hours, BelowHour(d), SecondsPerHour);
    DigitUnique(b.minutes, b.seconds, d.minutes, d.seconds, SecondsPerMinute);
  }

  /** The seconds held by the counts below a week, a day and an hour. */
  function BelowWeek(b: Breakdown): int {
    b.days * SecondsPerDay + BelowDay(b)
  }

  function BelowDay(b: Breakdown): int {
    b.hours * SecondsPerHour + BelowHour(b)
  }

  function BelowHour(b: Breakdown): int {
    b.minutes * SecondsPerMinute + b.seconds
  }

  /** Inside the radix, what lies below a unit is less than one of that unit,
      and it has the sign of the counts. */
  lemma BelowBounds(b: Breakdown)
    requires WithinRadix(b)
    ensures Total(b) == b.weeks * SecondsPerWeek + BelowWeek(b)
    ensures -SecondsPerWeek < BelowWeek(b) < SecondsPerWeek
    ensures -SecondsPerDay < BelowDay(b) < SecondsPerDay
    ensures -SecondsPerHour < BelowHour(b) < SecondsPerHour
    ensures AllNonNegative(b) ==> BelowWeek(b) >= 0 && BelowDay(b) >= 0 && BelowHour(b) >= 0
    ensures AllNonPositive(b) ==> BelowWeek(b) <= 0 && BelowDay(b) <= 0 && BelowHour(b) <= 0
  {
  }

  /** One digit of a mixed-radix numeral: a quotient and a remainder of the
      same sign that is smaller than the radix are determined by the value. */
  lemma DigitUnique(q1: int, r1: int, q2: int, r2: int, m: int)
    requires m > 0 && q1 * m + r1 == q2 * m + r2
    requires -m < r1 < m && -m < r2 < m
    requires (r1 >= 0 && r2 >= 0) || (r1 <= 0 && r2 <= 0)
    ensures q1 == q2 && r1 == r2
  {
    assert (q1 - q2) * m == q1 * m - q2 * m == r2 - r1;
    if q1 > q2 {
      QuotientBound(m, q1 - q2);
    } else if q1 < q2 {
      QuotientBound(m, q2 - q1);
    }
  }

  function Negate(b: Breakdown): Breakdown {
    Breakdown(-b.weeks, -b.days, -b.hours, -b.minutes, -b.seconds)
  }

  /** Because Go truncates toward zero, a negative input splits into the
      negated counts of its magnitude (-90061 gives -1 day, -1 hour, ...). */
  lemma DecomposeNegated(s: int)
    ensures Decompose(-s) == Negate(Decompose(s))
  {
    NegateKeepsShape(Decompose(s));
    BreakdownUnique(Decompose(-s), Negate(Decompose(s)));
  }

  /** Negating every count negates the total, keeps the counts inside their
      radix and flips their common sign. */
  lemma NegateKeepsShape(b: Breakdown)
    ensures Total(Negate(b)) == -Total(b)
    ensures WithinRadix(b) ==> WithinRadix(Negate(b))
    ensures AllNonNegative(b) ==> AllNonPositive(Negate(b))
    ensures AllNonPositive(b) ==> AllNonNegative(Negate(b))
  {
  }

  /** One emitted part: a positive count and its unit. */
  datatype Component = Component(count: nat, unit: Unit)

  function IfPositive(n: int, u: Unit): seq<Component> {
    if n > 0 then [Component(n, u)] else []
  }

  /** The parts the formatter emits, largest unit first. */
  function Components(b: Breakdown): seq<Component> {
    IfPositive(b.weeks, Weeks) + IfPositive(b.days, Days) + IfPositive(b.hours, Hours)
      + IfPositive(b.minutes, Minutes) + IfPositive(b.seconds, Seconds)
  }

  /** Every emitted part carries a positive count, and the count its own unit
      has in the breakdown; there is at most one part per unit. */
  lemma ComponentsSound(b: Breakdown)
    ensures var cs := Components(b);
      |cs| <= 5 && forall i :: 0 <= i < |cs| ==> cs[i].count == Amount(b, cs[i].unit) > 0
  {
  }

  /** The parts come in strictly descending unit order: weeks, days, hours,
      minutes, seconds. */
  lemma ComponentsOrdered(b: Breakdown)
    ensures var cs := Components(b);
      forall i, j :: 0 <= i < j < |cs| ==> Rank(cs[i].unit) < Rank(cs[j].unit)
  {
  }

  /** Every positive count is emitted. */
  lemma ComponentsComplete(b: Breakdown)
    ensures forall u :: Amount(b, u) > 0 ==> Component(Amount(b, u), u) in Components(b)
  {
  }

  /** `"<n> <unit>"`, as `fmt.Sprintf("%d weeks", weeks)` and its siblings write it. */
  function PartText(c: Component): string {
    NatToString(c.count) + " " + UnitName(c.unit)
  }

  function Texts(cs: seq<Component>): seq<string> {
    seq(|cs|, i requires 0 <= i < |cs| => PartText(cs[i]))
  }

  /** Rendering the parts one group at a time renders them all. */
  lemma TextsConcat(a: seq<Component>, b: seq<Component>, c: seq<Component>, d: seq<Component>, e: seq<Component>)
    ensures Texts(a) + Texts(b) + Texts(c) + Texts(d) + Texts(e) == Texts(a + b + c + d + e)
  {
  }

  const Separator := ", "
  const ZeroText := "0 seconds"

  /** What `formatDuration(s)` returns. */
  function Humanize(s: int): string {
    var cs := Components(Decompose(s));
    if cs == [] then ZeroText else Join(Texts(cs), Separator)
  }

  /** `formatDuration` as the program runs it: first the split of the input
      into counts, then the assembly of the text. */
  method FormatDuration(seconds: int) returns (r: string)
    ensures r == Humanize(seconds)
  {
    var b := SplitSeconds(seconds);
    r := AssembleParts(b);
  }

  /** The first half of `formatDuration`: the remainder is cut down step by
      step with Go's `/` and `%`, one unit at a time. */
  method SplitSeconds(seconds: int) returns (b: Breakdown)
    ensures b == Decompose(seconds)
  {
    var rest := seconds;
    var weeks := Quot(rest, SecondsPerWeek);
    rest := Rem(rest, SecondsPerWeek);
    var days := Quot(rest, SecondsPerDay);
    rest := Rem(rest, SecondsPerDay);
    var hours := Quot(rest, SecondsPerHour);
    rest := Rem(rest, SecondsPerHour);
    var minutes := Quot(rest, SecondsPerMinute);
    rest := Rem(rest, SecondsPerMinute);
    b := Breakdown(weeks, days, hours, minutes, rest);
  }

  /** The second half of `formatDuration`: the list of parts grows by one
      `append` per positive count, then it is joined, or replaced by
      "0 seconds" when it stayed empty. */
  method AssembleParts(b: Breakdown) returns (r: string)
    ensures Components(b) == [] ==> r == ZeroText
    ensures Components(b) != [] ==> r == Join(Texts(Components(b)), Separator)
  {
    var parts: seq<string> := [];
    parts := AppendIfPositive(parts, b.weeks, Weeks);
    assert parts == Texts(IfPositive(b.weeks, Weeks));
    parts := AppendIfPositive(parts, b.days, Days);
    parts := AppendIfPositive(parts, b.hours, Hours);
    parts := AppendIfPositive(parts, b.minutes, Minutes);
    parts := AppendIfPositive(parts, b.seconds, Seconds);
    TextsConcat(IfPositive(b.weeks, Weeks), IfPositive(b.days, Days), IfPositive(b.hours, Hours),
                IfPositive(b.minutes, Minutes), IfPositive(b.seconds, Seconds));
    assert parts == Texts(Components(b));

    if |parts| == 0 {
      return ZeroText;
    }
    r := Join(parts, Separator);
  }

  /** One of the five `if n > 0 { parts = append(parts, fmt.Sprintf("%d <unit>", n)) }`
      steps: the list grows by the part for `n` exactly when `n` is positive. */
  method AppendIfPositive(parts: seq<string>, n: int, u: Unit) returns (grown: seq<string>)
    ensures grown == parts + Texts(IfPositive(n, u))
    ensures n > 0 <==> |grown| == |parts| + 1
  {
    grown := parts;
    if n > 0 {
      grown := grown + [NatToString(n) + " " + UnitName(u)];
    }
    assert Texts(IfPositive(n, u)) == if n > 0 then [NatToString(n) + " " + UnitName(u)] else [];
  }
}
