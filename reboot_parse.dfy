/**
 * The per-line parse of a reboot step, `on x=a..b,y=c..d,z=e..f`: the word before the
 * space decides the command, and each comma-separated argument, with its first two
 * characters dropped, is split at ".." into two integers; the upper end is made exclusive.
 */
module RebootParse {
  import opened Results

  /** A half-open range of integer coordinates [lo, hi). */
  datatype Range = Range(lo: int, hi: int)

  datatype Step = Step(on: bool, x: Range, y: Range, z: Range)

  datatype ParseError =
    | FieldCount     // the stripped line does not split at " " into exactly two fields
    | RangeShape     // an argument does not split at ".." into exactly two parts
    | NotAnInteger   // a part is not an optionally signed decimal integer
    | AxisCount      // the line does not give exactly three ranges

  type String = seq<char>

  /** The characters Python's `str.strip()` removes (those for which `str.isspace()` holds). */
  predicate IsSpace(c: char)
  {
    var n := c as int;
    (9 <= n <= 13) || (28 <= n <= 32) || n == 0x85 || n == 0xA0 || n == 0x1680 ||
    (0x2000 <= n <= 0x200A) || n == 0x2028 || n == 0x2029 || n == 0x202F || n == 0x205F || n == 0x3000
  }

  function StripLeft(s: String): (r: String)
    ensures |r| <= |s|
  {
    if s != [] && IsSpace(s[0]) then StripLeft(s[1..]) else s
  }

  function StripRight(s: String): (r: String)
    ensures |r| <= |s|
  {
    if s != [] && IsSpace(s[|s| - 1]) then StripRight(s[..|s| - 1]) else s
  }

  /** `s.strip()` */
  function Strip(s: String): String
  {
    StripRight(StripLeft(s))
  }

  predicate OccursAt(s: String, sep: String, i: nat)
  {
    i + |sep| <= |s| && s[i..i + |sep|] == sep
  }

  /** The position of the leftmost occurrence of sep in s. */
  function Find(s: String, sep: String): (r: Option<nat>)
    requires |sep| > 0
    ensures r.Some? ==> OccursAt(s, sep, r.value) && forall j :: 0 <= j < r.value ==> !OccursAt(s, sep, j)
    ensures r.None? ==> forall j :: 0 <= j <= |s| ==> !OccursAt(s, sep, j)
  {
    if |s| < |sep| then None
    else if s[..|sep|] == sep then Some(0)
    else
      OccursShift(s, sep);
      match Find(s[1..], sep)
      case None => None
      case Some(i) => Some(i + 1)
  }

  lemma OccursShift(s: String, sep: String)
    requires |s| > 0
    ensures forall j :: 1 <= j <= |s| ==> (OccursAt(s, sep, j) <==> OccursAt(s[1..], sep, j - 1))
  {
    forall j | 1 <= j <= |s| ensures OccursAt(s, sep, j) <==> OccursAt(s[1..], sep, j - 1) {
      if j + |sep| <= |s| {
        var here, there := s[j..j + |sep|], s[1..][j - 1..j - 1 + |sep|];
        forall t | 0 <= t < |sep| ensures here[t] == there[t] {
        }
        assert here == there;
      }
    }
  }

  /** `s.split(sep)`: the pieces between the leftmost non-overlapping occurrences of sep. */
  function Split(s: String, sep: String): (parts: seq<String>)
    requires |sep| > 0
    ensures |parts| >= 1
    decreases |s|
  {
    match Find(s, sep)
    case None => [s]
    case Some(i) => [s[..i]] + Split(s[i + |sep|..], sep)
  }

  predicate IsDigit(c: char)
  {
    '0' <= c <= '9'
  }

  function DigitValue(c: char): nat
    requires IsDigit(c)
  {
    (c as int) - ('0' as int)
  }

  predicate AllDigits(s: String)
  {
    forall k :: 0 <= k < |s| ==> IsDigit(s[k])
  }

  /** The value of a string of decimal digits, most significant first. */
  function DigitsValue(s: String): nat
    requires AllDigits(s)
  {
    if s == [] then 0 else 10 * DigitsValue(s[..|s| - 1]) + DigitValue(s[|s| - 1])
  }

  /** `int(s)` for an optional sign followed by at least one decimal digit. */
  function ParseInt(s: String): Option<int>
  {
    if |s| > 0 && (s[0] == '-' || s[0] == '+') then
      var digits := s[1..];
      if |digits| > 0 && AllDigits(digits) then
        var d: int := DigitsValue(digits);
        Some(if s[0] == '-' then -d else d)
      else None
    else if |s| > 0 && AllDigits(s) then Some(DigitsValue(s))
    else None
  }

  /** One argument `?=a..b`: the first two characters are dropped, whatever they are. */
  function ParseRange(arg: String): Result<Range, ParseError>
  {
    var body := if |arg| >= 2 then arg[2..] else [];
    var parts := Split(body, "..");
    if |parts| != 2 then Err(RangeShape)
    else match (ParseInt(parts[0]), ParseInt(parts[1]))
      case (Some(b), Some(e)) => Ok(Range(b, e + 1))
      case _ => Err(NotAnInteger)
  }

  /** The arguments in order; the first failing one decides the error. */
  function ParseRanges(args: seq<String>): Result<seq<Range>, ParseError>
  {
    if args == [] then Ok([])
    else match ParseRange(args[0])
      case Err(e) => Err(e)
      case Ok(r) =>
        match ParseRanges(args[1..])
        case Err(e) => Err(e)
        case Ok(rs) => Ok([r] + rs)
  }

  /** The body of the per-line loop of read_reboot_steps. */
  function ParseLine(line: String): Result<Step, ParseError>
  {
    var fields := Split(Strip(line), " ");
    if |fields| != 2 then Err(FieldCount)
    else match ParseRanges(Split(fields[1], ","))
      case Err(e) => Err(e)
      case Ok(rs) =>
        if |rs| != 3 then Err(AxisCount)
        else Ok(Step(fields[0] == "on", rs[0], rs[1], rs[2]))
  }

  // ---------------------------------------------------------------------------------
  // The inverse: writing a step in the input syntax.

  function DigitChar(d: nat): (c: char)
    requires d < 10
    ensures IsDigit(c) && DigitValue(c) == d
  {
    ('0' as int + d) as char
  }

  function NatToString(n: nat): (s: String)
    ensures |s| > 0 && AllDigits(s)
    decreases n
  {
    if n < 10 then [DigitChar(n)] else NatToString(n / 10) + [DigitChar(n % 10)]
  }

  function IntToString(i: int): String
  {
    if i < 0 then "-" + NatToString(-i) else NatToString(i)
  }

  /** A range in the input syntax, with the inclusive upper end. */
  function FormatRange(axis: char, r: Range): String
  {
    [axis, '='] + IntToString(r.lo) + ".." + IntToString(r.hi - 1)
  }

  function FormatArgs(s: Step): String
  {
    FormatRange('x', s.x) + "," + FormatRange('y', s.y) + "," + FormatRange('z', s.z)
  }

  function FormatWord(on: bool): String
  {
    if on then "on" else "off"
  }

  function FormatStep(s: Step): String
  {
    FormatWord(s.on) + " " + FormatArgs(s)
  }

  lemma {:induction false} DigitsRoundTrip(n: nat)
    ensures DigitsValue(NatToString(n)) == n
    decreases n
  {
    if n >= 10 {
      DigitsRoundTrip(n / 10);
      var s := NatToString(n);
      assert s[..|s| - 1] == NatToString(n / 10);
    }
  }

  /** `int` reads back every integer it is given in decimal. */
  lemma IntRoundTrip(i: int)
    ensures ParseInt(IntToString(i)) == Some(i)
  {
    if i < 0 {
      DigitsRoundTrip(-i);
      assert IntToString(i)[1..] == NatToString(-i);
    } else {
      DigitsRoundTrip(i);
    }
  }

  predicate Avoids(s: String, c: char)
  {
    forall k :: 0 <= k < |s| ==> s[k] != c
  }

  lemma IntAvoids(i: int)
    ensures Avoids(IntToString(i), ' ') && Avoids(IntToString(i), ',') && Avoids(IntToString(i), '.')
  {
    var s := IntToString(i);
    forall k | 0 <= k < |s| ensures s[k] != ' ' && s[k] != ',' && s[k] != '.' {
      if i < 0 && k > 0 {
        assert s[k] == NatToString(-i)[k - 1];
      }
    }
  }

  /** A piece that does not contain the separator's first character ends at the separator. */
  lemma {:induction false} FindAfter(a: String, sep: String, b: String)
    requires |sep| > 0 && Avoids(a, sep[0])
    ensures Find(a + sep + b, sep) == Some(|a|)
  {
    var s := a + sep + b;
    if a == [] {
      assert s[..|sep|] == sep;
    } else {
      assert s[1..] == a[1..] + sep + b;
      FindAfter(a[1..], sep, b);
    }
  }

  lemma {:induction false} FindNone(a: String, sep: String)
    requires |sep| > 0 && Avoids(a, sep[0])
    ensures Find(a, sep) == None
  {
    if |a| >= |sep| {
      assert a[..|sep|][0] == a[0];
      assert a[1..] == a[1..];
      FindNone(a[1..], sep);
    }
  }

  lemma SplitOne(a: String, sep: String)
    requires |sep| > 0 && Avoids(a, sep[0])
    ensures Split(a, sep) == [a]
  {
    FindNone(a, sep);
  }

  lemma SplitCons(a: String, sep: String, b: String)
    requires |sep| > 0 && Avoids(a, sep[0])
    ensures Split(a + sep + b, sep) == [a] + Split(b, sep)
  {
    FindAfter(a, sep, b);
    var s := a + sep + b;
    assert s[..|a|] == a;
    assert s[|a| + |sep|..] == b;
  }

  lemma RangeAvoids(axis: char, r: Range)
    requires axis != ' ' && axis != ','
    ensures Avoids(FormatRange(axis, r), ' ') && Avoids(FormatRange(axis, r), ',')
  {
    var lo, hi := IntToString(r.lo), IntToString(r.hi - 1);
    IntAvoids(r.lo);
    IntAvoids(r.hi - 1);
    var arg := FormatRange(axis, r);
    forall k | 0 <= k < |arg| ensures arg[k] != ' ' && arg[k] != ',' {
      if k >= 2 {
        assert arg[k] == (lo + ".." + hi)[k - 2];
      }
    }
  }

  lemma RangeRoundTrip(axis: char, r: Range)
    ensures ParseRange(FormatRange(axis, r)) == Ok(r)
  {
    var lo, hi := IntToString(r.lo), IntToString(r.hi - 1);
    IntAvoids(r.lo);
    IntAvoids(r.hi - 1);
    var arg := FormatRange(axis, r);
    assert arg[2..] == lo + ".." + hi;
    SplitCons(lo, "..", hi);
    SplitOne(hi, "..");
    IntRoundTrip(r.lo);
    IntRoundTrip(r.hi - 1);
  }

  lemma StripFormatted(s: String)
    requires |s| > 0 && !IsSpace(s[0]) && !IsSpace(s[|s| - 1])
    ensures Strip(s) == s && Strip(s + "\n") == s
  {
    var t := s + "\n";
    assert StripLeft(t) == t;
    assert t[..|t| - 1] == s;
  }

  lemma AvoidsConcat(a: String, b: String, c: char)
    requires Avoids(a, c) && Avoids(b, c)
    ensures Avoids(a + b, c)
  {
    forall k | 0 <= k < |a + b| ensures (a + b)[k] != c {
      if k >= |a| {
        assert (a + b)[k] == b[k - |a|];
      }
    }
  }

  /** Three pieces free of a one-character separator split back into themselves. */
  lemma SplitThree(a: String, b: String, c: String, sep: String)
    requires |sep| == 1 && Avoids(a, sep[0]) && Avoids(b, sep[0]) && Avoids(c, sep[0])
    ensures Split(a + sep + b + sep + c, sep) == [a, b, c]
  {
    var rest := b + sep + c;
    assert a + sep + b + sep + c == a + sep + rest;
    SplitTwo(b, c, sep);
    SplitCons(a, sep, rest);
  }

  lemma SplitTwo(b: String, c: String, sep: String)
    requires |sep| == 1 && Avoids(b, sep[0]) && Avoids(c, sep[0])
    ensures Split(b + sep + c, sep) == [b, c]
  {
    SplitCons(b, sep, c);
    SplitOne(c, sep);
  }

  lemma ArgsSplit(s: Step)
    ensures Split(FormatArgs(s), ",") == [FormatRange('x', s.x), FormatRange('y', s.y), FormatRange('z', s.z)]
    ensures Avoids(FormatArgs(s), ' ')
  {
    var rx, ry, rz := FormatRange('x', s.x), FormatRange('y', s.y), FormatRange('z', s.z);
    RangeAvoids('x', s.x);
    RangeAvoids('y', s.y);
    RangeAvoids('z', s.z);
    SplitThree(rx, ry, rz, ",");
    AvoidsConcat(rx, ",", ' ');
    AvoidsConcat(rx + ",", ry, ' ');
    AvoidsConcat(rx + "," + ry, ",", ' ');
    AvoidsConcat(rx + "," + ry + ",", rz, ' ');
  }

  lemma ParseThree(a: String, b: String, c: String, ra: Range, rb: Range, rc: Range)
    requires ParseRange(a) == Ok(ra) && ParseRange(b) == Ok(rb) && ParseRange(c) == Ok(rc)
    ensures ParseRanges([a, b, c]) == Ok([ra, rb, rc])
  {
    ParseCons(c, [], rc, []);
    assert [c] + [] == [c] && [rc] + [] == [rc];
    ParseCons(b, [c], rb, [rc]);
    assert [b] + [c] == [b, c] && [rb] + [rc] == [rb, rc];
    ParseCons(a, [b, c], ra, [rb, rc]);
    assert [a] + [b, c] == [a, b, c] && [ra] + [rb, rc] == [ra, rb, rc];
  }

  lemma ParseCons(a: String, rest: seq<String>, r: Range, rs: seq<Range>)
    requires ParseRange(a) == Ok(r) && ParseRanges(rest) == Ok(rs)
    ensures ParseRanges([a] + rest) == Ok([r] + rs)
  {
    assert ([a] + rest)[1..] == rest;
  }

  lemma ArgsParse(s: Step)
    ensures ParseRanges(Split(FormatArgs(s), ",")) == Ok([s.x, s.y, s.z])
  {
    ArgsSplit(s);
    RangeRoundTrip('x', s.x);
    RangeRoundTrip('y', s.y);
    RangeRoundTrip('z', s.z);
    ParseThree(FormatRange('x', s.x), FormatRange('y', s.y), FormatRange('z', s.z), s.x, s.y, s.z);
  }

  lemma LastIsDigit(i: int)
    ensures IsDigit(IntToString(i)[|IntToString(i)| - 1])
  {
    if i < 0 {
      var t := IntToString(i);
      assert t[|t| - 1] == NatToString(-i)[|t| - 2];
    }
  }

  /** A word and an argument free of spaces, joined by one space, strip and split back. */
  lemma TwoFields(w: String, a: String)
    requires |w| > 0 && |a| > 0 && Avoids(w, ' ') && Avoids(a, ' ')
    requires !IsSpace(w[0]) && !IsSpace(a[|a| - 1])
    ensures Split(Strip(w + " " + a), " ") == [w, a]
    ensures Split(Strip(w + " " + a + "\n"), " ") == [w, a]
  {
    var line := w + " " + a;
    assert line[0] == w[0] && line[|line| - 1] == a[|a| - 1];
    StripFormatted(line);
    SplitCons(w, " ", a);
    SplitOne(a, " ");
  }

  /** The arguments of a formatted step end with the last digit of the z range's upper end. */
  lemma ArgsEnd(s: Step)
    ensures |FormatArgs(s)| > 0 && IsDigit(FormatArgs(s)[|FormatArgs(s)| - 1])
  {
    var args := FormatArgs(s);
    var rz := FormatRange('z', s.z);
    var t := IntToString(s.z.hi - 1);
    LastIsDigit(s.z.hi - 1);
    assert rz[|rz| - 1] == t[|t| - 1];
    assert args[|args| - 1] == rz[|rz| - 1];
  }

  lemma StepFields(s: Step)
    ensures Split(Strip(FormatStep(s)), " ") == [FormatWord(s.on), FormatArgs(s)]
    ensures Split(Strip(FormatStep(s) + "\n"), " ") == [FormatWord(s.on), FormatArgs(s)]
  {
    ArgsEnd(s);
    ArgsSplit(s);
    assert Avoids(FormatWord(s.on), ' ');
    TwoFields(FormatWord(s.on), FormatArgs(s));
  }

  /**
   * Parsing a step written in the input syntax gives the step back, with or without the
   * line's trailing newline.
   */
  lemma ParseFormatRoundTrip(s: Step)
    ensures ParseLine(FormatStep(s)) == Ok(s)
    ensures ParseLine(FormatStep(s) + "\n") == Ok(s)
  {
    StepFields(s);
    ArgsParse(s);
    assert (FormatWord(s.on) == "on") == s.on;
  }
}
