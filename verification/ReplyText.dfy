/** The reply texts that clients parse: quoted paths (257), numbers (213) and the passive address (227). */
module ReplyText {
  import opened Wrappers

  // ---------------------------------------------------------------- quoted paths

  function Doubled(path: string): string {
    if path == "" then ""
    else (if path[0] == '"' then ['"', '"'] else [path[0]]) + Doubled(path[1..])
  }

  function Quoted(path: string): string {
    ['"'] + Doubled(path) + ['"']
  }

  lemma {:induction false} DoubledSnoc(path: string, c: char)
    ensures Doubled(path + [c]) == Doubled(path) + if c == '"' then ['"', '"'] else [c]
  {
    if path == "" {
      assert path + [c] == [c];
      assert [c][1..] == "";
    } else {
      assert (path + [c])[1..] == path[1..] + [c];
      DoubledSnoc(path[1..], c);
    }
  }

  method CreateQuotedFtpPath(path: string) returns (output: string)
    ensures output == Quoted(path)
  {
    output := ['"'];
    for i := 0 to |path|
      invariant output == ['"'] + Doubled(path[..i])
    {
      output := output + [path[i]];
      if path[i] == '"' {
        output := output + [path[i]];
      }
      DoubledSnoc(path[..i], path[i]);
      assert path[..i + 1] == path[..i] + [path[i]];
    }
    output := output + ['"'];
    assert path[..|path|] == path;
  }

  /** What a client reads: the path inside the quotes and the text behind them. */
  datatype Reading = Reading(path: string, rest: string)

  /** Reads up to the first quote that is not doubled. */
  function ReadInside(text: string): Option<Reading> {
    if text == "" then None
    else if text[0] != '"' then
      match ReadInside(text[1..])
      case None => None
      case Some(r) => Some(Reading([text[0]] + r.path, r.rest))
    else if |text| > 1 && text[1] == '"' then
      match ReadInside(text[2..])
      case None => None
      case Some(r) => Some(Reading(['"'] + r.path, r.rest))
    else Some(Reading("", text[1..]))
  }

  function Unquote(text: string): Option<Reading> {
    if text != "" && text[0] == '"' then ReadInside(text[1..]) else None
  }

  /** A reading with more path in front of it. */
  function InFront(path: string, reading: Option<Reading>): Option<Reading> {
    match reading
    case None => None
    case Some(r) => Some(Reading(path + r.path, r.rest))
  }

  lemma ReadInsideFirst(c: char, text: string)
    ensures ReadInside((if c == '"' then ['"', '"'] else [c]) + text) == InFront([c], ReadInside(text))
  {
  }

  lemma {:induction false} ReadInsideDoubled(path: string, tail: string)
    ensures ReadInside(Doubled(path) + tail) == InFront(path, ReadInside(tail))
  {
    if path == "" {
      assert Doubled(path) + tail == tail;
      assert ReadInside(tail).Some? ==> path + ReadInside(tail).value.path == ReadInside(tail).value.path;
    } else {
      var first := if path[0] == '"' then ['"', '"'] else [path[0]];
      assert Doubled(path) + tail == first + (Doubled(path[1..]) + tail);
      ReadInsideFirst(path[0], Doubled(path[1..]) + tail);
      ReadInsideDoubled(path[1..], tail);
      assert ReadInside(tail).Some? ==>
          [path[0]] + (path[1..] + ReadInside(tail).value.path) == path + ReadInside(tail).value.path;
    }
  }

  /** Reading a quoted path back yields exactly the path and the suffix, unless the suffix starts with a quote. */
  lemma QuoteRoundTrip(path: string, suffix: string)
    ensures Unquote(Quoted(path) + suffix) == Some(Reading(path, suffix)) <==> (suffix == "" || suffix[0] != '"')
  {
    var tail := ['"'] + suffix;
    assert (Quoted(path) + suffix)[1..] == Doubled(path) + tail;
    ReadInsideDoubled(path, tail);
    assert tail[1..] == suffix;
    if suffix == "" || suffix[0] != '"' {
      assert path + "" == path;
    } else {
      ReadShrinks(tail[2..]);
    }
  }

  lemma {:induction false} ReadShrinks(text: string)
    ensures ReadInside(text).Some? ==> |ReadInside(text).value.rest| < |text|
    decreases |text|
  {
    if text != "" && text[0] != '"' {
      ReadShrinks(text[1..]);
    } else if |text| > 1 && text[1] == '"' {
      ReadShrinks(text[2..]);
    }
  }

  lemma QuoteInjective(p: string, q: string)
    requires Quoted(p) == Quoted(q)
    ensures p == q
  {
    QuoteRoundTrip(p, "");
    QuoteRoundTrip(q, "");
    assert Quoted(p) + "" == Quoted(q) + "";
  }

  // ---------------------------------------------------------------- numbers

  predicate IsDigit(c: char) {
    '0' <= c <= '9'
  }

  function Digit(n: nat): char
    requires n < 10
  {
    '0' + n as char
  }

  function Decimal(n: nat): (text: string)
    ensures text != "" && forall i | 0 <= i < |text| :: IsDigit(text[i])
  {
    if n < 10 then [Digit(n)] else Decimal(n / 10) + [Digit(n % 10)]
  }

  /** Numbers are written without leading zeros. */
  lemma {:induction false} NoLeadingZero(n: nat)
    ensures n > 0 ==> Decimal(n)[0] != '0'
  {
    if n >= 10 {
      NoLeadingZero(n / 10);
    }
  }

  /** The number in front of a text: value of the leading digits, continuing from what was read. */
  function ReadDigits(value: nat, text: string): (nat, string)
    decreases |text|
  {
    if text != "" && IsDigit(text[0]) then ReadDigits(10 * value + (text[0] - '0') as nat, text[1..])
    else (value, text)
  }

  lemma {:induction false} ReadDecimal(n: nat, rest: string)
    requires rest == "" || !IsDigit(rest[0])
    ensures ReadDigits(0, Decimal(n) + rest) == (n, rest)
  {
    ReadDecimalThen(n, rest);
    assert ReadDigits(n, rest) == (n, rest);
  }

  lemma {:induction false} ReadDecimalThen(n: nat, rest: string)
    ensures ReadDigits(0, Decimal(n) + rest) == ReadDigits(n, rest)
  {
    if n < 10 {
      assert (Decimal(n) + rest)[1..] == rest;
    } else {
      var text := [Digit(n % 10)] + rest;
      ReadDecimalThen(n / 10, text);
      assert Decimal(n) + rest == Decimal(n / 10) + text;
      assert text[1..] == rest;
    }
  }

  // ---------------------------------------------------------------- passive address

  type Byte = n: nat | n < 256
  type Port = n: nat | n < 0x1_0000

  datatype Address = Address(a: Byte, b: Byte, c: Byte, d: Byte)

  /** Numbers separated by commas. */
  function CommaList(fields: seq<nat>): string
    requires fields != []
  {
    if |fields| == 1 then Decimal(fields[0]) else Decimal(fields[0]) + "," + CommaList(fields[1..])
  }

  /** The address and the two halves of the port, as printed in the 227 reply. */
  function PassiveFields(address: Address, port: Port): seq<nat> {
    [address.a, address.b, address.c, address.d, port / 256 % 256, port % 256]
  }

  function PassiveText(address: Address, port: Port): string {
    "Entering passive mode " + ['('] + (CommaList(PassiveFields(address, port)) + ")")
  }

  /** The text behind the first c. */
  function Behind(c: char, text: string): Option<string> {
    if text == "" then None
    else if text[0] == c then Some(text[1..])
    else Behind(c, text[1..])
  }

  lemma {:induction false} BehindFirst(prefix: string, c: char, rest: string)
    requires c !in prefix
    ensures Behind(c, prefix + [c] + rest) == Some(rest)
  {
    var text := prefix + [c] + rest;
    if prefix == "" {
      assert text == [c] + rest;
    } else {
      assert text[1..] == prefix[1..] + [c] + rest;
      BehindFirst(prefix[1..], c, rest);
    }
  }

  /** Reads count numbers separated by commas. */
  function ReadList(count: nat, text: string): Option<(seq<nat>, string)>
    requires count > 0
    decreases count
  {
    if text == "" || !IsDigit(text[0]) then None else
    var (n, rest) := ReadDigits(0, text);
    if count == 1 then Some(([n], rest))
    else if rest == "" || rest[0] != ',' then None
    else
      match ReadList(count - 1, rest[1..])
      case None => None
      case Some(r) => Some(([n] + r.0, r.1))
  }

  lemma ReadListFirst(count: nat, n: nat, rest: string)
    requires count > 1
    ensures ReadList(count, Decimal(n) + "," + rest) ==
            match ReadList(count - 1, rest)
            case None => None
            case Some(r) => Some(([n] + r.0, r.1))
  {
    assert Decimal(n) + "," + rest == Decimal(n) + ("," + rest);
    ReadDecimal(n, "," + rest);
    assert ("," + rest)[1..] == rest;
  }

  lemma {:induction false} ReadCommaList(fields: seq<nat>, rest: string)
    requires fields != [] && (rest == "" || !IsDigit(rest[0]))
    ensures ReadList(|fields|, CommaList(fields) + rest) == Some((fields, rest))
    decreases |fields|
  {
    if |fields| == 1 {
      ReadDecimal(fields[0], rest);
      assert fields == [fields[0]] && (CommaList(fields) + rest)[0] == Decimal(fields[0])[0];
    } else {
      var more := CommaList(fields[1..]) + rest;
      assert CommaList(fields) + rest == Decimal(fields[0]) + "," + more;
      ReadListFirst(|fields|, fields[0], more);
      ReadCommaList(fields[1..], rest);
      assert [fields[0]] + fields[1..] == fields;
    }
  }

  /** What a client makes of the 227 text: skip to the parenthesis, read six numbers and rebuild the port. */
  function ReadPassive(text: string): Option<(seq<nat>, nat)> {
    match Behind('(', text)
    case None => None
    case Some(list) =>
      match ReadList(6, list)
      case None => None
      case Some(r) =>
        if |r.0| != 6 || r.1 == "" || r.1[0] != ')' then None
        else Some((r.0[..4], r.0[4] * 256 + r.0[5]))
  }

  /** The client connects to the address and port the server listens on. */
  lemma PassiveRoundTrip(address: Address, port: Port)
    ensures ReadPassive(PassiveText(address, port)) ==
            Some(([address.a, address.b, address.c, address.d], port))
  {
    var fields := PassiveFields(address, port);
    BehindFirst("Entering passive mode ", '(', CommaList(fields) + ")");
    ReadCommaList(fields, ")");
    assert fields[..4] == [address.a, address.b, address.c, address.d];
  }
}
