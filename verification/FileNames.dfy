/** The names of cached screenshots in ScreenshotCacheManager.kt: all a file's metadata and its
    place in the queue are in its name. */
module FileNames {
  import opened Options
  import opened Strings
  import opened Decimals

  const MIN_LONG: int := -0x8000_0000_0000_0000
  const MAX_LONG: int := 0x7FFF_FFFF_FFFF_FFFF

  type Long = n: int | MIN_LONG <= n <= MAX_LONG

  function LongText(n: Long): string {
    if n < 0 then "-" + Dec(-(n as int)) else Dec(n)
  }

  function FileFor(capturedAtMs: Long, accountId: string): string {
    LongText(capturedAtMs) + "_" + accountId + ".jpg"
  }

  /** The index of the first occurrence, or the length. */
  function IndexOf(s: string, c: char): (i: nat)
    ensures i <= |s|
  {
    if s == [] || s[0] == c then 0 else 1 + IndexOf(s[1..], c)
  }

  lemma {:induction false} IndexOfIs(s: string, c: char, i: nat)
    requires i <= |s| && (forall j :: 0 <= j < i ==> s[j] != c) && (i < |s| ==> s[i] == c)
    ensures IndexOf(s, c) == i
  {
    if i > 0 {
      IndexOfIs(s[1..], c, i - 1);
    }
  }

  /** The index of the last occurrence, or the length when there is none. */
  function LastIndexOf(s: string, c: char): (i: nat)
    ensures i <= |s|
  {
    if s == [] then 0
    else if s[|s| - 1] == c then |s| - 1
    else
      var i := LastIndexOf(s[..|s| - 1], c);
      if i == |s| - 1 then |s| else i
  }

  lemma {:induction false} LastIndexOfIs(s: string, c: char)
    ensures var i := LastIndexOf(s, c);
      (i < |s| ==> s[i] == c) && forall j :: 0 <= j < |s| && s[j] == c ==> j <= i < |s|
  {
    if s != [] && s[|s| - 1] != c {
      var init := s[..|s| - 1];
      LastIndexOfIs(init, c);
      assert forall j :: 0 <= j < |init| ==> init[j] == s[j];
    }
  }

  function NameWithoutExtension(name: string): string {
    name[..LastIndexOf(name, '.')]
  }

  /** Kotlin's toLongOrNull: an optional sign, then decimal digits, within 64 bits. */
  function ToLongOrNull(s: string): Option<Long> {
    var signed := s != [] && (s[0] == '-' || s[0] == '+');
    var digits := if signed then s[1..] else s;
    if digits == [] || !AllDigits(digits) then None
    else
      var n := if signed && s[0] == '-' then -(Value(digits) as int) else Value(digits) as int;
      if MIN_LONG <= n <= MAX_LONG then Some(n) else None
  }

  function Parse(fileName: string): Option<(Long, string)> {
    var name := NameWithoutExtension(fileName);
    var i := IndexOf(name, '_');
    if i == |name| then None
    else
      var ts := ToLongOrNull(name[..i]);
      if ts.None? then None else Some((ts.value, name[i + 1..]))
  }

  // ----- round trip -----

  lemma LongRoundTrip(n: Long)
    ensures ToLongOrNull(LongText(n)) == Some(n)
    ensures '_' !in LongText(n)
  {
    if n < 0 {
      SignedRoundTrip(n);
    } else {
      UnsignedRoundTrip(n as int);
    }
  }

  lemma UnsignedRoundTrip(n: nat)
    requires n <= MAX_LONG
    ensures ToLongOrNull(Dec(n)) == Some(n) && '_' !in Dec(n)
  {
    DecRoundTrip(n);
    assert IsDigit(Dec(n)[0]);
  }

  lemma SignedRoundTrip(n: Long)
    requires n < 0
    ensures ToLongOrNull(LongText(n)) == Some(n) && '_' !in LongText(n)
  {
    var m: nat := -(n as int);
    DecRoundTrip(m);
    MinusText(Dec(m), m);
    assert LongText(n) == "-" + Dec(m);
  }

  lemma MinusText(digits: string, m: nat)
    requires digits != [] && AllDigits(digits) && Value(digits) == m <= -MIN_LONG
    ensures var t := ToLongOrNull("-" + digits); t.Some? && t.value as int == -(m as int)
    ensures '_' !in "-" + digits
  {
    assert ("-" + digits)[1..] == digits;
  }

  /** Parsing the text of a name gives back its parts, whatever underscores and dots the account contains. */
  lemma ParseText(capturedAtMs: Long, accountId: string)
    ensures Parse(FileFor(capturedAtMs, accountId)) == Some((capturedAtMs, accountId))
  {
    var text := LongText(capturedAtMs);
    var name := FileFor(capturedAtMs, accountId);
    var stem := text + "_" + accountId;
    LongRoundTrip(capturedAtMs);
    assert name == stem + ".jpg";
    assert name[|stem|] == '.' && name[|stem| + 1..] == "jpg";
    assert forall j :: |stem| < j < |name| ==> name[j] == name[|stem| + 1..][j - |stem| - 1];
    LastIndexOfIs(name, '.');
    assert LastIndexOf(name, '.') == |stem|;
    assert NameWithoutExtension(name) == stem;
    assert stem[|text|] == '_' && forall j :: 0 <= j < |text| ==> stem[j] == text[j];
    IndexOfIs(stem, '_', |text|);
    assert stem[..|text|] == text && stem[|text| + 1..] == accountId;
  }

  // ----- what names mean -----

  /** What is a 64-bit number: digits, or a sign and digits. */
  ghost predicate IsNumeral(s: string, n: Long) {
    exists digits: string {:trigger AllDigits(digits)} :: digits != [] && AllDigits(digits) &&
      (((s == digits || s == "+" + digits) && Value(digits) == n) ||
       (s == "-" + digits && Value(digits) == -(n as int)))
  }

  lemma NumeralIsRead(s: string, n: Long)
    requires IsNumeral(s, n)
    ensures ToLongOrNull(s) == Some(n)
  {
    var digits: string :| digits != [] && AllDigits(digits) &&
      (((s == digits || s == "+" + digits) && Value(digits) == n) ||
       (s == "-" + digits && Value(digits) == -(n as int)));
    assert IsDigit(digits[0]);
    assert s != digits ==> s[1..] == digits;
  }

  lemma ReadIsNumeral(s: string)
    requires ToLongOrNull(s).Some?
    ensures IsNumeral(s, ToLongOrNull(s).value)
  {
    var digits := if s[0] == '-' || s[0] == '+' then s[1..] else s;
    assert AllDigits(digits);
    assert s == digits || s == "+" + digits || s == "-" + digits;
  }

  lemma NumeralExactly(s: string, n: Long)
    ensures ToLongOrNull(s) == Some(n) <==> IsNumeral(s, n)
  {
    if IsNumeral(s, n) {
      NumeralIsRead(s, n);
    }
    if ToLongOrNull(s) == Some(n) {
      ReadIsNumeral(s);
    }
  }

  /** The name up to its last dot, or all of it. */
  lemma StemExactly(name: string) returns (extension: string)
    ensures '.' !in name ==> NameWithoutExtension(name) == name
    ensures '.' in name ==> '.' !in extension && name == NameWithoutExtension(name) + "." + extension
  {
    var i := LastIndexOf(name, '.');
    LastIndexOfIs(name, '.');
    extension := if i < |name| then name[i + 1..] else [];
    assert i < |name| ==> name == name[..i] + [name[i]] + name[i + 1..];
  }

  /** A name stands for a time and an account exactly when its stem is a numeral without underscore, an
      underscore and the account. */
  lemma ParseExactly(name: string, t: Long, a: string)
    ensures Parse(name) == Some((t, a)) <==>
      exists text: string :: '_' !in text && NameWithoutExtension(name) == text + "_" + a && IsNumeral(text, t)
  {
    var stem := NameWithoutExtension(name);
    if Parse(name) == Some((t, a)) {
      var text := FirstPart(stem);
      NumeralExactly(text, t);
      assert stem == text + "_" + a;
    }
    if text: string :| '_' !in text && stem == text + "_" + a && IsNumeral(text, t) {
      NumeralExactly(text, t);
      assert stem[|text|] == '_' && forall j :: 0 <= j < |text| ==> stem[j] == text[j];
      IndexOfIs(stem, '_', |text|);
      assert stem[..|text|] == text && stem[|text| + 1..] == a;
    }
  }

  /** What stands in front of the first underscore. */
  lemma FirstPart(stem: string) returns (text: string)
    requires IndexOf(stem, '_') < |stem|
    ensures var i := IndexOf(stem, '_');
      text == stem[..i] && '_' !in text && stem == text + "_" + stem[i + 1..]
  {
    var i := IndexOf(stem, '_');
    text := stem[..i];
    IndexOfStops(stem, '_');
    assert stem == stem[..i] + [stem[i]] + stem[i + 1..];
  }

  lemma {:induction false} IndexOfStops(s: string, c: char)
    ensures var i := IndexOf(s, c);
      (forall j :: 0 <= j < i ==> s[j] != c) && (i < |s| ==> s[i] == c)
  {
    if s != [] && s[0] != c {
      IndexOfStops(s[1..], c);
      assert forall j :: 0 < j < |s| ==> s[j] == s[1..][j - 1];
    }
  }

  /** The name of a file, as `File.name` reads it off a path: what follows the last slash. */
  function NameOf(path: string): string {
    var i := LastIndexOf(path, '/');
    if i == |path| then path else path[i + 1..]
  }

  lemma NameHasNoSlash(path: string)
    ensures '/' !in NameOf(path) && ('/' !in path ==> NameOf(path) == path)
  {
    var i := LastIndexOf(path, '/');
    LastIndexOfIs(path, '/');
    if i < |path| {
      forall c | c in NameOf(path)
        ensures c != '/'
      {
        var j :| 0 <= j < |NameOf(path)| && NameOf(path)[j] == c;
        assert path[i + 1 + j] == c;
      }
    }
  }

  lemma ParsedPartOfName(name: string)
    requires '/' !in name && Parse(name).Some?
    ensures '/' !in Parse(name).value.1
  {
    var stem := NameWithoutExtension(name);
    assert forall c :: c in stem ==> c in name;
    assert forall c :: c in Parse(name).value.1 ==> c in stem;
  }

  /** Parsing the file that a capture is written to gives back the capture time and the account exactly
      when the account id has no slash; underscores and dots do no harm. */
  lemma ParseFileFor(capturedAtMs: Long, accountId: string)
    ensures Parse(NameOf(FileFor(capturedAtMs, accountId))) == Some((capturedAtMs, accountId)) <==> '/' !in accountId
  {
    var path := FileFor(capturedAtMs, accountId);
    NameHasNoSlash(path);
    if '/' in accountId {
      if Parse(NameOf(path)).Some? {
        ParsedPartOfName(NameOf(path));
      }
    } else {
      NoSlashInText(capturedAtMs);
      ParseText(capturedAtMs, accountId);
    }
  }

  lemma NoSlashInText(n: Long)
    ensures '/' !in LongText(n)
  {
    DecRoundTrip(if n < 0 then -(n as int) else n as int);
  }

  // ----- name order -----

  function NumberName(n: nat, accountId: string): string {
    Dec(n) + ("_" + accountId + ".jpg")
  }

  lemma FileForIsNumberName(t: Long, a: string)
    ensures FileFor(t, a) == if t < 0 then "-" + NumberName(-(t as int), a) else NumberName(t as int, a)
  {
  }

  /** Between names that start with an earlier and a later number, name order agrees with the order of
      the numbers exactly when the earlier one is below the equally long leading part of the later one. */
  lemma NumberNameOrder(t1: nat, a1: string, t2: nat, a2: string)
    requires t1 < t2
    ensures Less(NumberName(t1, a1), NumberName(t2, a2)) <==> BelowLead(t1, t2)
  {
    var k := LaterIsNoShorter(t1, t2);
    var p := Dec(t1);
    var lead := Dec(Lead(t2, k));
    var rest := DecSplit(t2, k);
    LeadByValue(t1, Lead(t2, k));
    var x := "_" + a1 + ".jpg";
    var y := rest + ("_" + a2 + ".jpg");
    assert NumberName(t2, a2) == lead + y;
    if p == lead {
      LessAfterPrefix(p, x, y);
      assert k == 0 ==> rest == [] && Dec(t2) == lead;
      LeadByValue(t1, t2);
      assert IsDigit(y[0]) && x[0] == '_';
    } else {
      LessDecidedEarly(p, lead, x, y);
    }
  }

  lemma LaterIsNoShorter(t1: nat, t2: nat) returns (k: nat)
    requires t1 < t2
    ensures |Dec(t2)| == |Dec(t1)| + k
  {
    DecLength(t2, |Dec(t2)|);
    DecLength(t1, |Dec(t2)|);
    k := |Dec(t2)| - |Dec(t1)|;
  }

  lemma LeadByValue(m: nat, n: nat)
    ensures Dec(m) == Dec(n) <==> m == n
    ensures |Dec(m)| == |Dec(n)| ==> (Less(Dec(m), Dec(n)) <==> m < n)
  {
    DecRoundTrip(m);
    DecRoundTrip(n);
    if |Dec(m)| == |Dec(n)| {
      LessByValue(Dec(m), Dec(n));
    }
  }

  /** The lower number is below the equally long leading part of the higher one. */
  predicate BelowLead(low: nat, high: nat)
    requires low < high
  {
    LaterIsLonger(low, high);
    low < Lead(high, |Dec(high)| - |Dec(low)|)
  }

  /** Whether an earlier file sorts before a later one: below zero the longer number is the earlier one. */
  predicate SortsByTime(t1: Long, t2: Long)
    requires t1 < t2
  {
    if t1 >= 0 then BelowLead(t1, t2) else t2 >= 0 || !BelowLead(-(t2 as int), -(t1 as int))
  }

  lemma LaterIsLonger(low: nat, high: nat)
    requires low < high
    ensures |Dec(low)| <= |Dec(high)|
  {
    var k := LaterIsNoShorter(low, high);
  }

  /** Name order agrees with time order, for any two 64-bit times, exactly under this condition. In
      particular two times of one length below zero always sort in reverse. */
  lemma NameOrderExactly(t1: Long, a1: string, t2: Long, a2: string)
    requires t1 < t2
    ensures Less(FileFor(t1, a1), FileFor(t2, a2)) <==> SortsByTime(t1, t2)
  {
    if t1 >= 0 {
      NamesFromZero(t1, a1, t2, a2);
    } else if t2 >= 0 {
      NamesAcrossZero(t1, a1, t2, a2);
    } else {
      NamesBelowZero(t1, a1, t2, a2);
    }
  }

  lemma NamesFromZero(t1: nat, a1: string, t2: nat, a2: string)
    requires t1 < t2 <= MAX_LONG
    ensures Less(FileFor(t1, a1), FileFor(t2, a2)) <==> BelowLead(t1, t2)
  {
    FileForIsNumberName(t1, a1);
    FileForIsNumberName(t2, a2);
    NumberNameOrder(t1, a1, t2, a2);
  }

  lemma NamesAcrossZero(t1: Long, a1: string, t2: Long, a2: string)
    requires t1 < 0 <= t2
    ensures Less(FileFor(t1, a1), FileFor(t2, a2))
  {
    FileForIsNumberName(t1, a1);
    FileForIsNumberName(t2, a2);
    MinusComesFirst(NumberName(-(t1 as int), a1), t2 as int, a2);
  }

  lemma NamesBelowZero(t1: Long, a1: string, t2: Long, a2: string)
    requires t1 < t2 < 0
    ensures Less(FileFor(t1, a1), FileFor(t2, a2)) <==> !BelowLead(-(t2 as int), -(t1 as int))
  {
    var (low, high) := (-(t2 as int), -(t1 as int));
    assert FileFor(t1, a1) == "-" + NumberName(high, a1) by {
      FileForIsNumberName(t1, a1);
    }
    assert FileFor(t2, a2) == "-" + NumberName(low, a2) by {
      FileForIsNumberName(t2, a2);
    }
    NegativeNameOrder(low, a2, high, a1);
  }

  lemma NegativeNameOrder(low: nat, a: string, high: nat, b: string)
    requires low < high
    ensures Less("-" + NumberName(high, b), "-" + NumberName(low, a)) <==> !BelowLead(low, high)
  {
    NumberNameOrder(low, a, high, b);
    NamesDiffer(low, a, high, b);
    LessReversed(NumberName(low, a), NumberName(high, b));
    LessAfterPrefix("-", NumberName(high, b), NumberName(low, a));
  }

  lemma MinusComesFirst(x: string, n: nat, b: string)
    ensures Less("-" + x, NumberName(n, b))
  {
    DecRoundTrip(n);
    assert ("-" + x)[0] == '-' && NumberName(n, b)[0] == Dec(n)[0];
  }

  lemma LessReversed(x: string, y: string)
    requires x != y
    ensures Less(y, x) <==> !Less(x, y)
  {
    LessTotal(x, y);
    if Less(x, y) && Less(y, x) {
      LessTransitive(x, y, x);
      LessIrreflexive(x);
    }
  }

  lemma NamesDiffer(m: nat, a: string, n: nat, b: string)
    requires m != n
    ensures NumberName(m, a) != NumberName(n, b)
  {
    UnderscoreAt(m, a);
    UnderscoreAt(n, b);
    DecRoundTrip(m);
    DecRoundTrip(n);
  }

  /** The number stands in front of the first underscore. */
  lemma UnderscoreAt(n: nat, a: string)
    ensures var i := IndexOf(NumberName(n, a), '_');
      i < |NumberName(n, a)| && NumberName(n, a)[..i] == Dec(n)
  {
    DecRoundTrip(n);
    var s := NumberName(n, a);
    assert s[|Dec(n)|] == '_' && forall j :: 0 <= j < |Dec(n)| ==> s[j] == Dec(n)[j];
    IndexOfIs(s, '_', |Dec(n)|);
  }

  lemma ThirteenDigits(t: nat)
    requires 1_000_000_000_000 <= t < 10_000_000_000_000
    ensures |Dec(t)| == 13
  {
    assert Pow10(4) == 10_000;
    assert Pow10(8) == 100_000_000;
    assert Pow10(12) == 1_000_000_000_000;
    DecLength(t, 12);
    DecLength(t, 13);
  }

  /** Thirteen-digit millisecond timestamps (September 2001 to November 2286) sort by time. */
  lemma MillisecondNamesSortByTime(t1: nat, a1: string, t2: nat, a2: string)
    requires 1_000_000_000_000 <= t1 < t2 < 10_000_000_000_000
    ensures Less(FileFor(t1, a1), FileFor(t2, a2))
  {
    ThirteenDigits(t1);
    ThirteenDigits(t2);
    NameOrderExactly(t1, a1, t2, a2);
  }

  /** The moment at which millisecond timestamps got their thirteenth digit: the later file sorts first. */
  lemma ThirteenthDigitSortsFirst(a1: string, a2: string)
    ensures Less(FileFor(1_000_000_000_000, a2), FileFor(999_999_999_999, a1))
  {
    TwelveDigits(999_999_999_999);
    ThirteenDigits(1_000_000_000_000);
    var (x, y) := (NumberName(999_999_999_999, a1), NumberName(1_000_000_000_000, a2));
    FileForIsNumberName(999_999_999_999, a1);
    FileForIsNumberName(1_000_000_000_000, a2);
    NumberNameOrder(999_999_999_999, a1, 1_000_000_000_000, a2);
    NamesDiffer(999_999_999_999, a1, 1_000_000_000_000, a2);
    LessReversed(x, y);
  }

  lemma TwelveDigits(t: nat)
    requires 100_000_000_000 <= t < 1_000_000_000_000
    ensures |Dec(t)| == 12
  {
    assert Pow10(4) == 10_000;
    assert Pow10(8) == 100_000_000;
    assert Pow10(11) == 100_000_000_000;
    DecLength(t, 11);
    DecLength(t, 12);
  }
}
