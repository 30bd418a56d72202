/** Parsing quoted and dotted identifiers (ident.ParseIdent, ident.ParseTable). */
module IdentParse {
  import opened Wrappers

  const QUOTE: char := '"'
  const SEPARATOR: char := '.'
  // What decoding yields for a byte that is not part of well-formed UTF-8.
  const MALFORMED: char := '\U{FFFD}'
  const MAX_SCHEMA_PARTS := 2

  datatype Error = Empty | StartsWithSeparator | MalformedInput | NoTrailingQuote | ExpectingSeparator | TooManyParts

  // A part and the rest of the input.
  type Parsed = Result<(string, string), Error>

  // The quoting rule of the atoms.
  function Doubled(x: string): string {
    if x == [] then [] else (if x[0] == QUOTE then [QUOTE, QUOTE] else [x[0]]) + Doubled(x[1..])
  }

  function Quoted(x: string): string {
    [QUOTE] + Doubled(x) + [QUOTE]
  }

  // Replacing each pair of quotes by one, from the left.
  function Halved(s: string): string {
    if s == [] then []
    else if |s| >= 2 && s[0] == QUOTE && s[1] == QUOTE then [QUOTE] + Halved(s[2..])
    else [s[0]] + Halved(s[1..])
  }

  // The closing quote: the first from i on that is not one of a pair.
  function Closing(s: string, i: nat): (r: Result<nat, Error>)
    requires i <= |s|
    ensures r.Ok? ==> i <= r.value < |s| && s[r.value] == QUOTE
    decreases |s| - i
  {
    if i == |s| then Err(NoTrailingQuote)
    else if s[i] == MALFORMED then Err(MalformedInput)
    else if s[i] != QUOTE then Closing(s, i + 1)
    else if i + 1 == |s| then Ok(i)
    else if s[i + 1] == MALFORMED then Err(MalformedInput)
    else if s[i + 1] == QUOTE then Closing(s, i + 2)
    else Ok(i)
  }

  function QuotedPart(s: string): Parsed
    requires |s| > 0
  {
    match Closing(s, 1)
    case Err(e) => Err(e)
    case Ok(last) => Ok((Halved(s[1..last]), s[last + 1..]))
  }

  // Where the next separator or the end is.
  function Unquoted(s: string, i: nat): (r: Result<nat, Error>)
    requires i <= |s|
    ensures r.Ok? ==> i <= r.value <= |s|
    decreases |s| - i
  {
    if i == |s| || s[i] == SEPARATOR then Ok(i)
    else if s[i] == MALFORMED then Err(MalformedInput)
    else Unquoted(s, i + 1)
  }

  function UnquotedPart(s: string): Parsed {
    match Unquoted(s, 0)
    case Err(e) => Err(e)
    case Ok(n) => Ok((s[..n], s[n..]))
  }

  function Part(s: string): (r: Parsed)
    ensures r.Ok? ==> |r.value.1| < |s|
  {
    if s == "" then Err(Empty)
    else if s[0] == SEPARATOR then Err(StartsWithSeparator)
    else if s[0] == QUOTE then QuotedPart(s)
    else
      NonEmptyUnquoted(s);
      UnquotedPart(s)
  }

  lemma NonEmptyUnquoted(s: string)
    requires s != "" && s[0] != SEPARATOR
    ensures Unquoted(s, 0).Ok? ==> Unquoted(s, 0).value > 0
  {
  }

  function Dotted(s: string): Result<seq<string>, Error>
    decreases |s|
  {
    if s == "" then Ok([]) else
    match Part(s)
    case Err(e) => Err(e)
    case Ok((part, rest)) =>
      if rest == "" then Ok([part])
      else if rest[0] != SEPARATOR then Err(ExpectingSeparator)
      else match Dotted(rest[1..])
           case Err(e) => Err(e)
           case Ok(parts) => Ok([part] + parts)
  }

  datatype Table = NoTable | Table(schema: seq<string>, name: string)

  function TableOf(s: string): Result<Table, Error> {
    match Dotted(s)
    case Err(e) => Err(e)
    case Ok(parts) =>
      if parts == [] then Ok(NoTable)
      else if |parts| - 1 > MAX_SCHEMA_PARTS then Err(TooManyParts)
      else Ok(Table(parts[..|parts| - 1], parts[|parts| - 1]))
  }

  // The loops of the program.

  method ParseQuotedIdent(s: string) returns (r: Parsed)
    requires |s| > 0 && s[0] == QUOTE
    ensures r == QuotedPart(s)
  {
    var lastQuoteIdx: int := -1;
    // Zero stands for no previous character.
    var prev: Option<char> := None;
    var idx := 1;
    while idx < |s|
      invariant 1 <= idx <= |s|
      invariant if prev == Some(QUOTE)
                then lastQuoteIdx == idx - 1 >= 1 && s[idx - 1] == QUOTE && Closing(s, 1) == Closing(s, idx - 1)
                else lastQuoteIdx == -1 && Closing(s, 1) == Closing(s, idx)
    {
      var next := s[idx];
      if next == MALFORMED {
        return Err(MalformedInput);
      }
      if next == QUOTE {
        if prev == Some(QUOTE) {
          lastQuoteIdx, prev, idx := -1, None, idx + 1;
          continue;
        }
        lastQuoteIdx := idx;
      } else if prev == Some(QUOTE) {
        break;
      }
      prev := Some(next);
      idx := idx + 1;
    }
    if lastQuoteIdx == -1 {
      return Err(NoTrailingQuote);
    }
    return Ok((Halved(s[1..lastQuoteIdx]), s[lastQuoteIdx + 1..]));
  }

  method ParseUnquotedIdent(s: string) returns (r: Parsed)
    ensures r == UnquotedPart(s)
  {
    var idx := 0;
    while idx < |s| && s[idx] != SEPARATOR
      invariant idx <= |s| && Unquoted(s, 0) == Unquoted(s, idx)
    {
      if s[idx] == MALFORMED {
        return Err(MalformedInput);
      }
      idx := idx + 1;
    }
    return Ok((s[..idx], s[idx..]));
  }

  method ParseIdent(s: string) returns (r: Parsed)
    ensures r == Part(s)
  {
    if s == "" {
      return Err(Empty);
    }
    if s[0] == SEPARATOR {
      return Err(StartsWithSeparator);
    } else if s[0] == QUOTE {
      r := ParseQuotedIdent(s);
    } else {
      r := ParseUnquotedIdent(s);
    }
  }

  method ParseDottedIdent(input: string) returns (r: Result<seq<string>, Error>)
    ensures r == Dotted(input)
  {
    var s, parts := input, [];
    assert Dotted(input).Ok? ==> [] + Dotted(input).value == Dotted(input).value;
    while s != ""
      invariant Dotted(input) == Prepend(parts, Dotted(s))
      decreases |s|
    {
      var parsed := ParseIdent(s);
      if parsed.Err? {
        return Err(parsed.error);
      }
      var (part, remaining) := parsed.value;
      PrependOne(parts, part, s);
      parts := parts + [part];
      if remaining == "" {
        s := "";
        break;
      }
      if remaining[0] != SEPARATOR {
        return Err(ExpectingSeparator);
      }
      s := remaining[1..];
    }
    assert Dotted("") == Ok([]) && parts + [] == parts;
    return Ok(parts);
  }

  function Prepend(parts: seq<string>, r: Result<seq<string>, Error>): Result<seq<string>, Error> {
    if r.Err? then r else Ok(parts + r.value)
  }

  lemma PrependOne(parts: seq<string>, part: string, s: string)
    requires s != "" && Part(s).Ok? && Part(s).value.0 == part
    ensures var rest := Part(s).value.1;
            Prepend(parts, Dotted(s)) == if rest == "" then Ok(parts + [part])
                                         else if rest[0] != SEPARATOR then Err(ExpectingSeparator)
                                         else Prepend(parts + [part], Dotted(rest[1..]))
  {
    var rest := Part(s).value.1;
    if rest != "" && rest[0] == SEPARATOR && Dotted(rest[1..]).Ok? {
      var tail := Dotted(rest[1..]).value;
      assert parts + ([part] + tail) == parts + [part] + tail;
    }
  }

  method ParseTable(s: string) returns (r: Result<Table, Error>)
    ensures r == TableOf(s)
  {
    var parts := ParseDottedIdent(s);
    if parts.Err? {
      return Err(parts.error);
    }
    var n := |parts.value|;
    if n == 0 {
      return Ok(NoTable);
    }
    if n - 1 > MAX_SCHEMA_PARTS {
      return Err(TooManyParts);
    }
    return Ok(Table(parts.value[..n - 1], parts.value[n - 1]));
  }

  function Joined(parts: seq<string>): string {
    if parts == [] then ""
    else if |parts| == 1 then Quoted(parts[0])
    else Quoted(parts[0]) + [SEPARATOR] + Joined(parts[1..])
  }

  method Join(parts: seq<string>) returns (sb: string)
    ensures sb == Joined(parts)
  {
    sb := "";
    for idx := 0 to |parts|
      invariant sb == Joined(parts[..idx])
    {
      ghost var before := sb;
      if idx > 0 {
        sb := sb + [SEPARATOR];
      }
      sb := sb + Quoted(parts[idx]);
      JoinedLast(parts[..idx], parts[idx]);
      assert parts[..idx + 1] == parts[..idx] + [parts[idx]];
    }
    assert parts[..|parts|] == parts;
  }

  lemma {:induction false} JoinedLast(parts: seq<string>, last: string)
    ensures Joined(parts + [last]) == if parts == [] then Quoted(last) else Joined(parts) + [SEPARATOR] + Quoted(last)
  {
    if |parts| > 0 {
      JoinedLast(parts[1..], last);
      assert (parts + [last])[1..] == parts[1..] + [last];
    }
  }

  // Round trips.

  lemma {:induction false} HalvedDoubled(x: string)
    ensures Halved(Doubled(x)) == x
  {
    if x != [] {
      HalvedDoubled(x[1..]);
      var rest := Doubled(x[1..]);
      if x[0] == QUOTE {
        assert ([QUOTE, QUOTE] + rest)[2..] == rest;
      } else {
        assert ([x[0]] + rest)[1..] == rest;
      }
    }
  }

  // What may follow a quoted part for it to be parsed at all.
  predicate Follows(rest: string) {
    rest == "" || (rest[0] != QUOTE && rest[0] != MALFORMED)
  }

  lemma {:induction false} ClosingFinds(s: string, i: nat, x: string, rest: string)
    requires i <= |s| && s[i..] == Doubled(x) + [QUOTE] + rest && MALFORMED !in x && Follows(rest)
    ensures Closing(s, i) == Ok(i + |Doubled(x)|)
    decreases |x|
  {
    if x == [] {
      assert s[i] == QUOTE && s[i..][1..] == rest;
    } else {
      var n := if x[0] == QUOTE then 2 else 1;
      assert s[i] == s[i..][0] == x[0];
      assert s[i + n..] == s[i..][n..] == Doubled(x[1..]) + [QUOTE] + rest;
      assert x[0] == QUOTE ==> s[i + 1] == s[i..][1] == QUOTE;
      ClosingFinds(s, i + n, x[1..], rest);
    }
  }

  // One character, doubled if it is a quote, before the rest.
  lemma HalvedStep(c: char, first: string, rest: string)
    requires first == if c == QUOTE then [QUOTE, QUOTE] else [c]
    ensures Doubled(Halved(first + rest)) == first + Doubled(Halved(rest))
  {
    var all, h := first + rest, Halved(rest);
    assert all[|first|..] == rest;
    assert Halved(all) == [c] + h;
    assert ([c] + h)[1..] == h;
  }

  lemma ClosingStep(s: string, i: nat)
    requires i <= |s| && Closing(s, i).Ok?
    ensures var k := Closing(s, i).value;
            if i == k then Follows(s[k + 1..])
            else
              var n := if s[i] == QUOTE then 2 else 1;
              && i + n <= k && Closing(s, i + n) == Ok(k)
              && s[i] != MALFORMED && (n == 2 ==> s[i + 1] == QUOTE)
  {
  }

  // What lies before the closing quote, and what follows it.

  lemma {:induction false} ClosingDoubled(s: string, i: nat)
    requires i <= |s| && Closing(s, i).Ok?
    ensures var k := Closing(s, i).value; s[i..k] == Doubled(Halved(s[i..k]))
    decreases |s| - i
  {
    var k := Closing(s, i).value;
    ClosingStep(s, i);
    hide Closing, Follows;
    if i < k {
      var n := if s[i] == QUOTE then 2 else 1;
      ClosingDoubled(s, i + n);
      hide Doubled, Halved;
      assert s[i..k] == s[i..i + n] + s[i + n..k];
      HalvedStep(s[i], s[i..i + n], s[i + n..k]);
    } else {
      assert s[i..k] == "";
    }
  }

  lemma {:induction false} ClosingClean(s: string, i: nat)
    requires i <= |s| && Closing(s, i).Ok?
    ensures forall j | i <= j < Closing(s, i).value :: s[j] != MALFORMED
    decreases |s| - i
  {
    ClosingStep(s, i);
    hide Closing, Follows;
    if i < Closing(s, i).value {
      ClosingClean(s, i + if s[i] == QUOTE then 2 else 1);
    }
  }

  lemma {:induction false} ClosingFollows(s: string, i: nat)
    requires i <= |s| && Closing(s, i).Ok?
    ensures Follows(s[Closing(s, i).value + 1..])
    decreases |s| - i
  {
    ClosingStep(s, i);
    hide Closing, Follows;
    if i < Closing(s, i).value {
      ClosingFollows(s, i + if s[i] == QUOTE then 2 else 1);
    }
  }

  lemma {:induction false} HalvedMembers(s: string, c: char)
    requires c != QUOTE
    ensures c in Halved(s) <==> c in s
    decreases |s|
  {
    if |s| >= 2 && s[0] == QUOTE && s[1] == QUOTE {
      HalvedMembers(s[2..], c);
      assert s == [QUOTE, QUOTE] + s[2..];
    } else if s != [] {
      HalvedMembers(s[1..], c);
      assert s == [s[0]] + s[1..];
    }
  }

  lemma QuotedPartReads(s: string, x: string, rest: string)
    requires s != "" && s[0] == QUOTE && Part(s) == Ok((x, rest))
    ensures s == Quoted(x) + rest && MALFORMED !in x && Follows(rest)
  {
    var k := Closing(s, 1).value;
    ClosingDoubled(s, 1);
    ClosingClean(s, 1);
    ClosingFollows(s, 1);
    HalvedMembers(s[1..k], MALFORMED);
    hide Doubled, Halved, Closing;
    assert s == [s[0]] + s[1..k] + [s[k]] + s[k + 1..];
  }

  lemma QuotedPartFinds(s: string, x: string, rest: string)
    requires s == Quoted(x) + rest && MALFORMED !in x && Follows(rest)
    ensures Part(s) == Ok((x, rest))
  {
    hide Doubled, Halved, Closing;
    assert s[1..] == Doubled(x) + [QUOTE] + rest;
    ClosingFinds(s, 1, x, rest);
    var k := 1 + |Doubled(x)|;
    assert s[1..k] == Doubled(x) && s[k + 1..] == rest;
    HalvedDoubled(x);
  }

  // A quoted part is parsed exactly if the input starts with the quoted form of
  // its value, and then exactly that much is read.
  lemma QuotedPartIff(s: string, x: string, rest: string)
    requires s != "" && s[0] == QUOTE
    ensures Part(s) == Ok((x, rest)) <==> s == Quoted(x) + rest && MALFORMED !in x && Follows(rest)
  {
    hide Doubled, Halved, Closing, Part;
    if Part(s) == Ok((x, rest)) {
      QuotedPartReads(s, x, rest);
    }
    if s == Quoted(x) + rest && MALFORMED !in x && Follows(rest) {
      QuotedPartFinds(s, x, rest);
    }
  }

  // ---- The errors ----

  // Everything from i on is quoted text, and no quote closes it.
  ghost predicate Unclosed(s: string, i: nat) {
    i <= |s| && exists x :: MALFORMED !in x && s[i..] == Doubled(x)
  }

  // Quoted text from i on, perhaps with a quote behind it, leads up to malformed
  // input.
  ghost predicate BreaksOff(s: string, i: nat) {
    exists x, k :: BreaksOffAt(s, i, x, k)
  }

  predicate BreaksOffAt(s: string, i: nat, x: string, k: nat) {
    && i <= k < |s| && s[k] == MALFORMED && MALFORMED !in x
    && (s[i..k] == Doubled(x) || s[i..k] == Doubled(x) + [QUOTE])
  }

  // The first character of quoted text.
  lemma DoubledFirst(s: string, i: nat, k: nat, x: string, end: string)
    requires i <= k <= |s| && x != [] && s[i..k] == Doubled(x) + end
    ensures var n := if x[0] == QUOTE then 2 else 1;
            && i + n <= k && s[i] == x[0] && (n == 2 ==> s[i + 1] == QUOTE) && s[i + n..k] == Doubled(x[1..]) + end
  {
    var first, rest := if x[0] == QUOTE then [QUOTE, QUOTE] else [x[0]], Doubled(x[1..]);
    assert s[i..k] == first + (rest + end) by {
      Grouped(first, rest, end);
    }
    hide Doubled;
    SliceStarts(s, i, k, first, rest + end);
  }

  lemma Grouped(a: string, b: string, c: string)
    ensures (a + b) + c == a + (b + c)
  {
  }

  lemma SliceStarts(s: string, i: nat, k: nat, first: string, rest: string)
    requires i <= k <= |s| && s[i..k] == first + rest
    ensures i + |first| <= k && s[i + |first|..k] == rest && forall j | 0 <= j < |first| :: s[i + j] == first[j]
  {
    assert forall j | 0 <= j < k - i :: s[i..k][j] == s[i + j];
  }

  lemma {:induction false} NoQuoteFound(s: string, i: nat, x: string)
    requires i <= |s| && s[i..] == Doubled(x) && MALFORMED !in x
    ensures Closing(s, i) == Err(NoTrailingQuote)
    decreases |x|
  {
    if x != [] {
      assert s[i..|s|] == s[i..] == Doubled(x) + "";
      DoubledFirst(s, i, |s|, x, "");
      var n := if x[0] == QUOTE then 2 else 1;
      assert s[i + n..] == s[i + n..|s|] == Doubled(x[1..]);
      NoQuoteFound(s, i + n, x[1..]);
    }
  }

  lemma {:induction false} MalformedFound(s: string, i: nat, x: string, k: nat)
    requires BreaksOffAt(s, i, x, k)
    ensures Closing(s, i) == Err(MalformedInput)
    decreases |x|
  {
    if x == [] {
      assert s[i..k] == [QUOTE] ==> k == i + 1 && s[i] == s[i..k][0];
      assert s[i..k] == [] ==> k == i;
    } else {
      var end := if s[i..k] == Doubled(x) then "" else [QUOTE];
      assert Doubled(x) + "" == Doubled(x);
      DoubledFirst(s, i, k, x, end);
      var n := if x[0] == QUOTE then 2 else 1;
      assert Doubled(x[1..]) + "" == Doubled(x[1..]);
      MalformedFound(s, i + n, x[1..], k);
    }
  }

  lemma PrependDoubled(c: char, x: string)
    ensures Doubled([c] + x) == (if c == QUOTE then [QUOTE, QUOTE] else [c]) + Doubled(x)
  {
    assert ([c] + x)[1..] == x;
  }

  // What a failing search has seen.
  lemma {:induction false} ClosingFails(s: string, i: nat) returns (x: string, k: nat)
    requires i <= |s| && Closing(s, i).Err?
    ensures MALFORMED !in x
    ensures || (Closing(s, i) == Err(NoTrailingQuote) && s[i..] == Doubled(x))
            || (Closing(s, i) == Err(MalformedInput) && BreaksOffAt(s, i, x, k))
    decreases |s| - i
  {
    x, k := "", i;
    if i == |s| || s[i] == MALFORMED {
      assert s[i..i] == "" && (i == |s| ==> s[i..] == "");
    } else if s[i] == QUOTE && s[i + 1] == MALFORMED {
      k := i + 1;
      assert s[i..k] == [QUOTE] == Doubled(x) + [QUOTE];
    } else {
      var n := if s[i] == QUOTE then 2 else 1;
      x, k := ClosingFails(s, i + n);
      PrependDoubled(s[i], x);
      var first := if s[i] == QUOTE then [QUOTE, QUOTE] else [s[i]];
      FailsEarlier(s, i, n, x, k, first);
      x := [s[i]] + x;
    }
  }

  lemma FailsEarlier(s: string, i: nat, n: nat, x: string, k: nat, first: string)
    requires i + n <= |s| && first == s[i..i + n]
    ensures s[i + n..] == Doubled(x) ==> s[i..] == first + Doubled(x)
    ensures i + n <= k <= |s| && s[i + n..k] == Doubled(x) ==> s[i..k] == first + Doubled(x)
    ensures i + n <= k <= |s| && s[i + n..k] == Doubled(x) + [QUOTE] ==> s[i..k] == (first + Doubled(x)) + [QUOTE]
  {
    hide Doubled;
    assert s[i..] == first + s[i + n..];
    if i + n <= k <= |s| {
      assert s[i..k] == first + s[i + n..k];
    }
  }

  // Which error a part leads to.
  lemma PartErrors(s: string)
    ensures Part(s) == Err(Empty) <==> s == ""
    ensures Part(s) == Err(StartsWithSeparator) <==> s != "" && s[0] == SEPARATOR
    ensures Part(s) == Err(NoTrailingQuote) <==> s != "" && s[0] == QUOTE && Unclosed(s, 1)
    ensures Part(s) == Err(MalformedInput) <==>
            s != "" && s[0] != SEPARATOR &&
            if s[0] == QUOTE then BreaksOff(s, 1)
            else exists n | 0 <= n < |s| :: s[n] == MALFORMED && SEPARATOR !in s[..n]
  {
    hide Doubled, Halved;
    if s != "" && s[0] == QUOTE {
      if Closing(s, 1).Err? {
        var x, k := ClosingFails(s, 1);
      }
      if x :| MALFORMED !in x && s[1..] == Doubled(x) {
        NoQuoteFound(s, 1, x);
      }
      if x, k :| BreaksOffAt(s, 1, x, k) {
        MalformedFound(s, 1, x, k);
      }
    } else if s != "" && s[0] != SEPARATOR {
      UnquotedFails(s, 0);
      assert forall n | 0 <= n < |s| :: s[0..n] == s[..n];
    }
  }

  lemma {:induction false} UnquotedFails(s: string, i: nat)
    requires i <= |s|
    ensures Unquoted(s, i).Err? <==> exists n | i <= n < |s| :: s[n] == MALFORMED && SEPARATOR !in s[i..n]
    ensures Unquoted(s, i).Err? ==> Unquoted(s, i) == Err(MalformedInput)
    decreases |s| - i
  {
    if i < |s| && s[i] != SEPARATOR && s[i] != MALFORMED {
      UnquotedFails(s, i + 1);
      assert forall n | i < n < |s| :: s[i..n] == [s[i]] + s[i + 1..n];
    } else if i < |s| {
      assert forall n | i < n < |s| :: s[i..n][0] == s[i];
      assert s[i..i] == "";
    }
  }

  lemma {:induction false} UnquotedIs(s: string, i: nat)
    requires i <= |s|
    ensures Unquoted(s, i).Ok? ==>
              var n := Unquoted(s, i).value;
              SEPARATOR !in s[i..n] && MALFORMED !in s[i..n] && (n == |s| || s[n] == SEPARATOR)
    ensures forall n |
              && i <= n <= |s| && SEPARATOR !in s[i..n] && MALFORMED !in s[i..n]
              && (n == |s| || s[n] == SEPARATOR) ::
              Unquoted(s, i) == Ok(n)
    decreases |s| - i
  {
    if i < |s| && s[i] != SEPARATOR && s[i] != MALFORMED {
      UnquotedIs(s, i + 1);
      forall n | i < n <= |s| ensures s[i..n] == [s[i]] + s[i + 1..n] {
      }
    } else if i < |s| {
      forall n | i < n <= |s| ensures s[i] in s[i..n] {
        assert s[i..n][0] == s[i];
      }
    }
  }

  // An unquoted part is everything up to the next separator.
  lemma UnquotedPartIff(s: string, x: string, rest: string)
    requires s != "" && s[0] != QUOTE && s[0] != SEPARATOR
    ensures Part(s) == Ok((x, rest)) <==>
            s == x + rest && SEPARATOR !in x && MALFORMED !in x && (rest == "" || rest[0] == SEPARATOR)
  {
    UnquotedIs(s, 0);
    if s == x + rest {
      assert s[0..|x|] == s[..|x|] == x && s[|x|..] == rest;
    }
    if Part(s) == Ok((x, rest)) {
      var n := Unquoted(s, 0).value;
      assert s[0..n] == s[..n] && s == s[..n] + s[n..];
    }
  }

  predicate Clean(parts: seq<string>) {
    forall i | 0 <= i < |parts| :: MALFORMED !in parts[i]
  }

  // The first part read, and what the rest is read as.
  lemma DottedFirst(s: string, part: string, rest: string)
    requires s != "" && Part(s) == Ok((part, rest))
    ensures rest == "" ==> Dotted(s) == Ok([part])
    ensures rest != "" && rest[0] == SEPARATOR ==> Dotted(s) == Prepend([part], Dotted(rest[1..]))
    ensures rest != "" && rest[0] != SEPARATOR ==> Dotted(s) == Err(ExpectingSeparator)
    ensures Dotted("") == Ok([])
  {
    hide Part;
    assert Dotted("") == Ok([]);
  }

  // What follows the first part.
  function Remainder(parts: seq<string>): string
    requires parts != []
  {
    if |parts| == 1 then "" else [SEPARATOR] + Joined(parts[1..])
  }

  lemma JoinedFirst(parts: seq<string>, end: string)
    requires parts != []
    ensures Joined(parts) + end == Quoted(parts[0]) + (Remainder(parts) + end)
  {
    hide Quoted;
    if |parts| > 1 {
      Regrouped(Quoted(parts[0]), [SEPARATOR], Joined(parts[1..]), end);
    }
    hide Joined;
  }

  lemma RemainderFirst(parts: seq<string>, end: string)
    requires parts != [] && (end == "" || end[0] == SEPARATOR)
    ensures var rest := Remainder(parts) + end;
            && Follows(rest) && (rest != "" ==> rest[0] == SEPARATOR)
            && (|parts| > 1 ==> rest != "" && rest[1..] == Joined(parts[1..]) + end)
            && (|parts| == 1 ==> rest == end && parts == [parts[0]])
  {
    hide Joined;
  }

  lemma Regrouped(a: string, b: string, c: string, d: string)
    ensures a + b + c + d == a + ((b + c) + d)
  {
  }

  // Reading it, up to a given end that may follow a part.
  lemma ReadsFirst(parts: seq<string>, end: string)
    requires parts != [] && Clean(parts) && (end == "" || end[0] == SEPARATOR)
    ensures |parts| > 1 ==>
              Dotted(Joined(parts) + end) == Prepend([parts[0]], Dotted(Joined(parts[1..]) + end))
    ensures |parts| == 1 ==>
              Dotted(Joined(parts) + end) == if end == "" then Ok(parts) else Prepend(parts, Dotted(end[1..]))
  {
    var s, rest := Joined(parts) + end, Remainder(parts) + end;
    assert MALFORMED !in parts[0];
    hide Quoted, Part, Joined, Dotted, Prepend, Clean;
    JoinedFirst(parts, end);
    RemainderFirst(parts, end);
    hide Remainder;
    QuotedPartFinds(s, parts[0], rest);
    DottedFirst(s, parts[0], rest);
  }

  // Any sequence of parts is read back from its quoted and dotted form.
  lemma {:induction false} DottedRoundTrip(parts: seq<string>)
    requires Clean(parts)
    ensures Dotted(Joined(parts)) == Ok(parts)
  {
    if parts == [] {
      assert Joined(parts) == "";
    } else {
      ReadsFirst(parts, "");
      hide Joined, Dotted;
      assert Joined(parts) + "" == Joined(parts);
      if |parts| > 1 {
        DottedRoundTrip(parts[1..]);
        assert Joined(parts[1..]) + "" == Joined(parts[1..]);
        assert parts == [parts[0]] + parts[1..];
      }
    }
  }

  predicate AllEmpty(parts: seq<string>) {
    forall i | 0 <= i < |parts| :: parts[i] == ""
  }

  // The parts that the quoted form of a table shows.
  function Idents(t: Table): seq<string> {
    if t.NoTable? || (AllEmpty(t.schema) && t.name == "") then []
    else (if AllEmpty(t.schema) then [] else t.schema) + [t.name]
  }

  lemma PartIsClean(s: string)
    requires Part(s).Ok?
    ensures MALFORMED !in Part(s).value.0
  {
    var (x, rest) := Part(s).value;
    if s[0] == QUOTE {
      QuotedPartIff(s, x, rest);
    } else {
      UnquotedPartIff(s, x, rest);
    }
  }

  // What is read never holds the replacement character.
  lemma {:induction false} DottedIsClean(s: string)
    requires Dotted(s).Ok?
    ensures Clean(Dotted(s).value)
    decreases |s|
  {
    hide Part;
    if s != "" {
      PartIsClean(s);
      var rest := Part(s).value.1;
      if rest != "" {
        DottedIsClean(rest[1..]);
      }
    }
  }

  lemma TableIsClean(s: string)
    ensures TableOf(s).Ok? && TableOf(s).value.Table? ==>
              Clean(TableOf(s).value.schema + [TableOf(s).value.name])
  {
    if Dotted(s).Ok? && Dotted(s).value != [] {
      var parts := Dotted(s).value;
      DottedIsClean(s);
      assert parts == parts[..|parts| - 1] + [parts[|parts| - 1]];
    }
  }

  // So is a table, whatever quotes and dots are in its names, unless all its
  // schema's parts are empty, it is an empty name without a schema, its schema
  // has too many parts, or one of its parts holds the replacement character,
  // which ident.New accepts and the parser refuses.
  lemma TableRoundTripIff(t: Table)
    ensures TableOf(Joined(Idents(t))) == Ok(t) <==>
            t.NoTable? || (&& |t.schema| <= MAX_SCHEMA_PARTS
                           && Clean(t.schema + [t.name])
                           && if t.schema == [] then t.name != "" else !AllEmpty(t.schema))
  {
    hide Dotted, Joined;
    var s := Joined(Idents(t));
    if t.Table? {
      var all := t.schema + [t.name];
      assert all[..|t.schema|] == t.schema && all[|t.schema|] == t.name;
      if Clean(all) {
        assert forall i | 0 <= i < |t.schema| :: t.schema[i] == all[i];
        DottedRoundTrip(Idents(t));
      }
      TableIsClean(s);
    } else {
      DottedRoundTrip([]);
    }
  }

  // More than two schema parts are an error.
  lemma TooDeep(parts: seq<string>)
    requires |parts| > MAX_SCHEMA_PARTS + 1 && Clean(parts)
    ensures TableOf(Joined(parts)) == Err(TooManyParts)
  {
    DottedRoundTrip(parts);
  }

  // A separator at the end is ignored.
  lemma {:induction false} TrailingSeparator(parts: seq<string>)
    requires parts != [] && Clean(parts)
    ensures Dotted(Joined(parts) + [SEPARATOR]) == Ok(parts)
  {
    ReadsFirst(parts, [SEPARATOR]);
    if |parts| > 1 {
      hide Joined, Dotted;
      TrailingSeparator(parts[1..]);
      assert parts == [parts[0]] + parts[1..];
    } else {
      assert [SEPARATOR][1..] == "" && parts + [] == parts;
    }
  }
}
