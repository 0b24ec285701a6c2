/** Reading the formatter's output back: a parser for the language
    `<n> <unit>(, <n> <unit>)*` and the proofs that what `formatDuration`
    writes reads back as the components it computed, and so sums back to the
    number of seconds it was given. */
module DurationParse {
  import opened GoFmt
  import opened GoStrings
  import opened Duration

  datatype Option<T> = None | Some(value: T)

  predicate IsLower(c: char) {
    'a' <= c <= 'z'
  }

  /** The length of the longest prefix of `s` made of decimal digits. */
  function DigitRun(s: string): (k: nat)
    ensures k <= |s| && AllDigits(s[..k])
    ensures k < |s| ==> !IsDigit(s[k])
  {
    if s == [] || !IsDigit(s[0]) then 0
    else
      var k := 1 + DigitRun(s[1..]);
      assert s[..k] == [s[0]] + s[1..][..k - 1];
      k
  }

  /** A numeral followed by anything that does not start with a digit is
      delimited exactly by its digit run. */
  lemma DigitRunOfNumeral(d: string, t: string)
    requires AllDigits(d)
    requires t == [] || !IsDigit(t[0])
    ensures DigitRun(d + t) == |d| && (d + t)[..|d|] == d
  {
    assert (d + t)[..|d|] == d;
  }

  /** The length of the longest prefix of `s` made of lower-case letters. */
  function WordRun(s: string): (k: nat)
    ensures k <= |s| && (forall i :: 0 <= i < k ==> IsLower(s[i]))
    ensures k < |s| ==> !IsLower(s[k])
  {
    if s == [] || !IsLower(s[0]) then 0 else 1 + WordRun(s[1..])
  }

  /** The unit a word names, if any. */
  function UnitNamed(w: string): (r: Option<Unit>)
    ensures r.Some? ==> UnitName(r.value) == w
    ensures forall u :: UnitName(u) == w ==> r == Some(u)
  {
    if w == "weeks" then Some(Weeks)
    else if w == "days" then Some(Days)
    else if w == "hours" then Some(Hours)
    else if w == "minutes" then Some(Minutes)
    else if w == "seconds" then Some(Seconds)
    else None
  }

  /** Reads one `<n> <unit>` from the front of `s` and returns what follows. */
  function ParsePart(s: string): (r: Option<(Component, string)>)
    ensures r.Some? ==> |r.value.1| < |s|
  {
    var k := DigitRun(s);
    if k == 0 || k == |s| || s[k] != ' ' then None
    else
      var w := s[k + 1..];
      var j := WordRun(w);
      match UnitNamed(w[..j])
      case None => None
      case Some(u) => Some((Component(ParseNat(s[..k]), u), w[j..]))
  }

  /** Reads a non-empty list of parts separated by ", ", with nothing before
      the first part or after the last. */
  function ParseParts(s: string): Option<seq<Component>>
    decreases |s|
  {
    match ParsePart(s)
    case None => None
    case Some((c, t)) =>
      if t == [] then Some([c])
      else if |t| >= 2 && t[..2] == Separator then
        match ParseParts(t[2..])
        case None => None
        case Some(cs) => Some([c] + cs)
      else None
  }

  /** The number of seconds a list of parts stands for. */
  function SecondsOf(cs: seq<Component>): int {
    if cs == [] then 0 else cs[0].count * UnitSeconds(cs[0].unit) + SecondsOf(cs[1..])
  }

  /** The number of seconds a rendered duration stands for, if it is well formed. */
  function Reparse(s: string): Option<int> {
    match ParseParts(s)
    case None => None
    case Some(cs) => Some(SecondsOf(cs))
  }

  /** A unit name followed by nothing or by a separator is delimited exactly
      by its letter run. */
  lemma WordRunOfName(u: Unit, t: string)
    requires t == [] || t[0] == ','
    ensures var name := UnitName(u);
      WordRun(name + t) == |name| && (name + t)[..|name|] == name && (name + t)[|name|..] == t
  {
    var name := UnitName(u);
    assert forall i :: 0 <= i < |name| ==> IsLower(name[i]);
    assert |name| < |name + t| ==> (name + t)[|name|] == ',';
    assert (name + t)[..|name|] == name && (name + t)[|name|..] == t;
  }

  /** A numeral, a space and a word: the digit run ends at the space. */
  lemma NumeralThenWord(d: string, w: string, s: string)
    requires AllDigits(d) && s == d + ([' '] + w)
    ensures DigitRun(s) == |d| && |d| < |s| && s[..|d|] == d && s[|d|] == ' ' && s[|d| + 1..] == w
  {
    DigitRunOfNumeral(d, [' '] + w);
    assert s[|d| + 1..] == w;
  }

  /** `ParsePart` on a string whose pieces are already known. */
  lemma ParsePartAt(s: string, k: nat, u: Unit, t: string)
    requires 0 < k < |s| && DigitRun(s) == k && s[k] == ' '
    requires var w := s[k + 1..]; var name := UnitName(u);
      WordRun(w) == |name| && w[..|name|] == name && w[|name|..] == t
    ensures ParsePart(s) == Some((Component(ParseNat(s[..k]), u), t))
  {
    assert UnitNamed(UnitName(u)) == Some(u);
  }

  lemma PartTextShape(c: Component, t: string)
    ensures PartText(c) + t == NatToString(c.count) + ([' '] + (UnitName(c.unit) + t))
  {
  }

  /** One rendered part, followed by nothing or by a separator, reads back as
      that part, leaving the rest untouched. */
  lemma ParsePartText(c: Component, t: string)
    requires t == [] || t[0] == ','
    ensures ParsePart(PartText(c) + t) == Some((c, t))
  {
    var d, name := NatToString(c.count), UnitName(c.unit);
    var s := PartText(c) + t;
    PartTextShape(c, t);
    NumeralThenWord(d, name + t, s);
    WordRunOfName(c.unit, t);
    ParseNatToString(c.count);
    ParsePartAt(s, |d|, c.unit, t);
  }

  /** A single rendered part reads back as a one-part list. */
  lemma ParsePartsSingle(c: Component)
    ensures ParseParts(PartText(c)) == Some([c])
  {
    ParsePartText(c, []);
    assert PartText(c) + [] == PartText(c);
  }

  /** A part followed by a separator and a well-formed rest reads as that part
      in front of the rest's parts. */
  lemma ParsePartsCons(c: Component, rest: string, cs: seq<Component>, s: string)
    requires ParseParts(rest) == Some(cs)
    requires s == PartText(c) + (Separator + rest)
    ensures ParseParts(s) == Some([c] + cs)
  {
    var t := Separator + rest;
    ParsePartText(c, t);
    assert t[..2] == Separator && t[2..] == rest;
  }

  /** The same, stated for a list and its tail. */
  lemma ParsePartsHeadTail(cs: seq<Component>, rest: string, s: string)
    requires cs != [] && ParseParts(rest) == Some(cs[1..])
    requires s == PartText(cs[0]) + (Separator + rest)
    ensures ParseParts(s) == Some(cs)
  {
    ParsePartsCons(cs[0], rest, cs[1..], s);
    HeadTail(cs);
  }

  lemma HeadTail(cs: seq<Component>)
    requires cs != []
    ensures [cs[0]] + cs[1..] == cs
  {
  }

  /** Rendering and joining one part gives that part's text. */
  lemma JoinTextsSingle(cs: seq<Component>)
    requires |cs| == 1
    ensures Join(Texts(cs), Separator) == PartText(cs[0])
  {
    assert Texts(cs) == [PartText(cs[0])];
  }

  /** Rendering and joining several parts gives the first part's text, the
      separator, and the rendering of the rest. */
  lemma JoinTextsCons(cs: seq<Component>)
    requires |cs| > 1
    ensures Join(Texts(cs), Separator) == PartText(cs[0]) + (Separator + Join(Texts(cs[1..]), Separator))
  {
    var ts := Texts(cs);
    assert ts[0] == PartText(cs[0]) && ts[1..] == Texts(cs[1..]);
    JoinCons(ts, Separator);
  }

  /** The inductive step of `ParseJoin`: if the rendering of the tail reads
      back, so does the rendering of the whole list. */
  lemma ParseJoinStep(cs: seq<Component>)
    requires |cs| > 1
    requires ParseParts(Join(Texts(cs[1..]), Separator)) == Some(cs[1..])
    ensures ParseParts(Join(Texts(cs), Separator)) == Some(cs)
  {
    JoinTextsCons(cs);
    ParsePartsHeadTail(cs, Join(Texts(cs[1..]), Separator), Join(Texts(cs), Separator));
  }

  /** Joining rendered parts with ", " is undone by `ParseParts`. */
  lemma {:induction false} ParseJoin(cs: seq<Component>)
    requires cs != []
    ensures ParseParts(Join(Texts(cs), Separator)) == Some(cs)
  {
    if |cs| == 1 {
      JoinTextsSingle(cs);
      ParsePartsSingle(cs[0]);
      assert [cs[0]] == cs;
    } else {
      ParseJoin(cs[1..]);
      ParseJoinStep(cs);
    }
  }

  /** The seconds of two lists of parts add up. */
  lemma {:induction false} SecondsOfConcat(a: seq<Component>, b: seq<Component>)
    ensures SecondsOf(a + b) == SecondsOf(a) + SecondsOf(b)
  {
    if a == [] {
      assert a + b == b;
    } else {
      assert (a + b)[0] == a[0] && (a + b)[1..] == a[1..] + b;
      SecondsOfConcat(a[1..], b);
    }
  }

  /** Leaving out the zero counts loses nothing: the emitted parts of a
      breakdown without negative counts stand for its whole total. */
  lemma ComponentsTotal(b: Breakdown)
    requires AllNonNegative(b)
    ensures SecondsOf(Components(b)) == Total(b)
  {
    var w, d, h := IfPositive(b.weeks, Weeks), IfPositive(b.days, Days), IfPositive(b.hours, Hours);
    var m, x := IfPositive(b.minutes, Minutes), IfPositive(b.seconds, Seconds);
    SecondsOfIfPositive(b.weeks, Weeks);
    SecondsOfIfPositive(b.days, Days);
    SecondsOfIfPositive(b.hours, Hours);
    SecondsOfIfPositive(b.minutes, Minutes);
    SecondsOfIfPositive(b.seconds, Seconds);
    SecondsOfConcat(w, d);
    SecondsOfConcat(w + d, h);
    SecondsOfConcat(w + d + h, m);
    SecondsOfConcat(w + d + h + m, x);
  }

  lemma SecondsOfIfPositive(n: int, u: Unit)
    requires n >= 0
    ensures SecondsOf(IfPositive(n, u)) == n * UnitSeconds(u)
  {
    if n > 0 {
      assert IfPositive(n, u)[1..] == [];
    }
  }

  /** Some part is emitted exactly when the input is positive. */
  lemma ComponentsOfDecompose(s: int)
    ensures Components(Decompose(s)) == [] <==> s <= 0
  {
    var b := Decompose(s);
    if s > 0 {
      var u := if b.weeks > 0 then Weeks else if b.days > 0 then Days
        else if b.hours > 0 then Hours else if b.minutes > 0 then Minutes else Seconds;
      assert Amount(b, u) > 0;
      assert Component(Amount(b, u), u) in Components(b);
    }
  }

  /** The zero text is the rendering of zero seconds. */
  lemma ZeroTextIsPart()
    ensures ZeroText == PartText(Component(0, Seconds))
  {
    assert NatToString(0) == "0";
  }

  /** What `formatDuration` writes reads back as the parts it chose: for a
      positive input the non-zero counts of its decomposition, otherwise the
      single part "0 seconds". */
  lemma HumanizeReadsBack(s: int)
    ensures s > 0 ==> ParseParts(Humanize(s)) == Some(Components(Decompose(s)))
    ensures s <= 0 ==> ParseParts(Humanize(s)) == Some([Component(0, Seconds)])
  {
    ComponentsOfDecompose(s);
    if s > 0 {
      ParseJoin(Components(Decompose(s)));
    } else {
      ZeroTextIsPart();
      ParsePartsSingle(Component(0, Seconds));
    }
  }

  /** Reading the text back and adding up its parts gives the input back for
      every non-negative input, and zero for a negative one. */
  lemma HumanizeRoundTrip(s: int)
    ensures Reparse(Humanize(s)) == Some(if s >= 0 then s else 0)
  {
    HumanizeReadsBack(s);
    if s > 0 {
      ComponentsTotal(Decompose(s));
      ReparseOf(Humanize(s), Components(Decompose(s)));
    } else {
      ReparseOf(Humanize(s), [Component(0, Seconds)]);
    }
  }

  lemma ReparseOf(t: string, cs: seq<Component>)
    requires ParseParts(t) == Some(cs)
    ensures Reparse(t) == Some(SecondsOf(cs))
  {
  }

  /** The result is "0 seconds" exactly when every count is zero or negative,
      that is when the input is not positive. */
  lemma HumanizeZeroIff(s: int)
    ensures Humanize(s) == "0 seconds" <==> s <= 0
  {
    HumanizeReadsBack(s);
    ZeroTextIsPart();
    ParsePartsSingle(Component(0, Seconds));
  }

  /** The result is never empty and holds between one and five parts. */
  lemma HumanizePartCount(s: int)
    ensures Humanize(s) != ""
    ensures ParseParts(Humanize(s)).Some?
    ensures 1 <= |ParseParts(Humanize(s)).value| <= 5
  {
    HumanizeReadsBack(s);
    ComponentsOfDecompose(s);
    assert ParsePart("") == None;
  }

  /** The rendering of a positive input is the join of its parts' texts. */
  lemma HumanizePositive(s: int, cs: seq<Component>)
    requires s > 0 && Components(Decompose(s)) == cs
    ensures Humanize(s) == Join(Texts(cs), Separator)
  {
    ComponentsOfDecompose(s);
  }

  /** A count of one is written "1 <unit>". */
  lemma PartTextOne(u: Unit)
    ensures PartText(Component(1, u)) == "1 " + UnitName(u)
  {
    assert NatToString(1) == "1";
  }

  /** 90061 = 86400 + 3600 + 60 + 1 seconds gives
      "1 days, 1 hours, 1 minutes, 1 seconds". */
  lemma HumanizeExampleMixed()
    ensures Humanize(90061) == "1 days, 1 hours, 1 minutes, 1 seconds"
  {
    var b := Decompose(90061);
    BreakdownUnique(b, Breakdown(0, 1, 1, 1, 1));
    var cs := [Component(1, Days), Component(1, Hours), Component(1, Minutes), Component(1, Seconds)];
    assert Components(b) == cs;
    HumanizePositive(90061, cs);
    MixedTexts(cs);
    JoinFour("1 days", "1 hours", "1 minutes", "1 seconds", Separator);
    MixedLiteral();
  }

  lemma MixedLiteral()
    ensures "1 days" + ", " + "1 hours" + ", " + "1 minutes" + ", " + "1 seconds"
      == "1 days, 1 hours, 1 minutes, 1 seconds"
  {
  }

  lemma MixedTexts(cs: seq<Component>)
    requires cs == [Component(1, Days), Component(1, Hours), Component(1, Minutes), Component(1, Seconds)]
    ensures Texts(cs) == ["1 days", "1 hours", "1 minutes", "1 seconds"]
  {
    var ts := Texts(cs);
    PartTextOne(Days);
    assert ts[0] == "1 days";
    PartTextOne(Hours);
    assert ts[1] == "1 hours";
    PartTextOne(Minutes);
    assert ts[2] == "1 minutes";
    PartTextOne(Seconds);
    assert ts[3] == "1 seconds";
  }

  lemma JoinFour(a: string, b: string, c: string, d: string, sep: string)
    ensures Join([a, b, c, d], sep) == a + sep + b + sep + c + sep + d
  {
    JoinCons([c, d], sep);
    assert [c, d][1..] == [d];
    JoinCons([b, c, d], sep);
    assert [b, c, d][1..] == [c, d];
    JoinCons([a, b, c, d], sep);
    assert [a, b, c, d][1..] == [b, c, d];
  }

  /** Exactly one week. */
  lemma HumanizeExampleWeek()
    ensures Humanize(604800) == "1 weeks"
  {
    var w := Decompose(604800);
    BreakdownUnique(w, Breakdown(1, 0, 0, 0, 0));
    assert Components(w) == [Component(1, Weeks)];
    HumanizePositive(604800, [Component(1, Weeks)]);
    PartTextOne(Weeks);
    assert Texts([Component(1, Weeks)])[0] == "1 weeks";
    assert Texts([Component(1, Weeks)]) == ["1 weeks"];
  }
}
