/** The hand-written Redis client of the load tests: the bytes it sends for a command and the
    way it reads replies (RESP2, sections "Bulk strings" and "Arrays"). */
module Resp {
  import Decimal

  datatype Option<+T> = None | Some(value: T)

  type Byte = b: nat | b < 256

  type Bytes = seq<Byte>

  const CR: Byte := 13
  const LF: Byte := 10
  const STAR: Byte := 42
  const DOLLAR: Byte := 36
  const PLUS: Byte := 43
  const MINUS: Byte := 45
  const COLON: Byte := 58

  /** The size of Java arrays, and the range of its integers, are limited. */
  const INT_LIMIT := 0x8000_0000
  const LONG_LIMIT := 0x8000_0000_0000_0000

  datatype Value = Status(line: Bytes) | Number(n: int) | Null | Bulk(bytes: Bytes) | Arr(items: seq<Value>)

  datatype Failure = Eof | RedisError(line: Bytes) | BadLine | BadNumber | BadTerminator | BadType

  datatype Result<+T> = Ok(value: T, rest: Bytes) | Err(failure: Failure)

  // ------------------------------------------------------------ numbers

  /** The bytes of digits. */
  function Ascii(s: string): Bytes
    requires forall c | c in s :: Decimal.IsDigit(c)
  {
    if s == [] then [] else Ascii(s[..|s| - 1]) + [48 + Decimal.DigitValue(s[|s| - 1])]
  }

  predicate IsDigit(b: Byte) {
    48 <= b <= 57
  }

  function NumberBytes(n: int): Bytes {
    if n >= 0 then Ascii(Decimal.Numeral(n)) else [MINUS] + Ascii(Decimal.Numeral(-n))
  }

  /** The value of a line of digits. */
  function DigitsValue(line: Bytes): nat
    requires forall b | b in line :: IsDigit(b)
  {
    if line == [] then 0
    else
      var last := line[|line| - 1];
      assert IsDigit(last);
      10 * DigitsValue(line[..|line| - 1]) + (last as int - 48)
  }

  /** `Integer.parseInt` and `Long.parseLong`, by the limit: a sign, then digits only. */
  function ParseInt(line: Bytes, limit: int): Option<int> {
    var signed := line != [] && (line[0] == PLUS || line[0] == MINUS);
    var digits := if signed then line[1..] else line;
    if digits == [] || exists b | b in digits :: !IsDigit(b) then None
    else
      var n := if signed && line[0] == MINUS then 0 - DigitsValue(digits) as int else DigitsValue(digits);
      if -limit <= n < limit then Some(n) else None
  }

  lemma {:induction false} AsciiValue(s: string)
    requires forall c | c in s :: Decimal.IsDigit(c)
    ensures |Ascii(s)| == |s| && forall b | b in Ascii(s) :: IsDigit(b)
    ensures DigitsValue(Ascii(s)) == Decimal.Value(s)
  {
    if s != [] {
      var front := s[..|s| - 1];
      AsciiValue(front);
      var last := 48 + Decimal.DigitValue(s[|s| - 1]);
      assert IsDigit(last) && Ascii(s) == Ascii(front) + [last];
      assert Ascii(s)[..|s| - 1] == Ascii(front);
    }
  }

  lemma NumeralBytes(n: nat)
    ensures var line := Ascii(Decimal.Numeral(n));
            line != [] && (forall b | b in line :: IsDigit(b)) && DigitsValue(line) == n
  {
    AsciiValue(Decimal.Numeral(n));
    Decimal.ValueOfNumeral(n);
  }

  lemma ParseDigits(line: Bytes, limit: int)
    requires line != [] && forall b | b in line :: IsDigit(b)
    ensures DigitsValue(line) < limit ==> ParseInt(line, limit) == Some(DigitsValue(line) as int)
    ensures -limit <= -(DigitsValue(line) as int) < limit ==> ParseInt([MINUS] + line, limit) == Some(-(DigitsValue(line) as int))
    ensures CR !in line && CR !in [MINUS] + line
  {
    hide DigitsValue;
    assert line[0] in line;
    assert ([MINUS] + line)[1..] == line;
  }

  /** Numbers in range are read as they are written. */
  lemma ParseNumberBytes(n: int, limit: int)
    requires -limit <= n < limit
    ensures ParseInt(NumberBytes(n), limit) == Some(n) && CR !in NumberBytes(n)
  {
    hide Ascii, ParseInt, DigitsValue, Decimal.Numeral;
    var digits := Decimal.Numeral(if n >= 0 then n else -n);
    NumeralBytes(if n >= 0 then n else -n);
    ParseDigits(Ascii(digits), limit);
  }

  // ------------------------------------------------------------ reading

  /** The line up to CR LF, and what follows. */
  function ReadLine(input: Bytes): Result<Bytes> {
    if input == [] then Err(Eof)
    else if input[0] == CR then
      if |input| < 2 || input[1] != LF then Err(BadLine) else Ok([], input[2..])
    else
      match ReadLine(input[1..])
      case Ok(line, rest) => Ok([input[0]] + line, rest)
      case Err(failure) => Err(failure)
  }

  function ReadBulk(input: Bytes, length: nat): Result<Value> {
    if |input| < length then Err(Eof)
    else if |input| < length + 2 || input[length] != CR || input[length + 1] != LF then Err(BadTerminator)
    else Ok(Bulk(input[..length]), input[length + 2..])
  }

  lemma {:induction false} LineShortens(input: Bytes)
    ensures ReadLine(input).Ok? ==> |ReadLine(input).rest| + 2 + |ReadLine(input).value| == |input|
  {
    if input != [] && input[0] != CR {
      LineShortens(input[1..]);
    }
  }

  /** One reply. */
  function Receive(input: Bytes): (r: Result<Value>)
    ensures r.Ok? ==> |r.rest| < |input|
    decreases |input|, 0
  {
    if input == [] then Err(Eof)
    else
      LineShortens(input[1..]);
      match ReadLine(input[1..])
      case Err(failure) => Err(failure)
      case Ok(line, rest) =>
        if input[0] == PLUS then Ok(Status(line), rest)
        else if input[0] == MINUS then Err(RedisError(line))
        else if input[0] == COLON then
          match ParseInt(line, LONG_LIMIT)
          case Some(n) => Ok(Number(n), rest)
          case None => Err(BadNumber)
        else if input[0] == DOLLAR || input[0] == STAR then
          match ParseInt(line, INT_LIMIT)
          case None => Err(BadNumber)
          case Some(n) =>
            if input[0] == DOLLAR then if n < 0 then Ok(Null, rest) else ReadBulk(rest, n)
            else if n < 0 then Ok(Arr([]), rest)
            else
              match ReceiveMany(rest, n)
              case Ok(items, after) => Ok(Arr(items), after)
              case Err(failure) => Err(failure)
        else Err(BadType)
  }

  /** Replies one after the other. */
  function ReceiveMany(input: Bytes, n: nat): (r: Result<seq<Value>>)
    ensures r.Ok? ==> |r.rest| <= |input|
    decreases |input|, 1, n
  {
    if n == 0 then Ok([], input)
    else
      match Receive(input)
      case Err(failure) => Err(failure)
      case Ok(value, rest) =>
        match ReceiveMany(rest, n - 1)
        case Err(failure) => Err(failure)
        case Ok(values, after) => Ok([value] + values, after)
  }

  // ------------------------------------------------------------ writing

  const CRLF: Bytes := [CR, LF]

  /** What a value is on the wire. */
  function Encode(v: Value): Bytes
    decreases v, 0
  {
    match v
    case Status(line) => [PLUS] + line + CRLF
    case Number(n) => [COLON] + NumberBytes(n) + CRLF
    case Null => [DOLLAR] + NumberBytes(-1) + CRLF
    case Bulk(bytes) => [DOLLAR] + NumberBytes(|bytes|) + CRLF + bytes + CRLF
    case Arr(items) => [STAR] + NumberBytes(|items|) + CRLF + EncodeAll(items)
  }

  function EncodeAll(vs: seq<Value>): Bytes
    decreases vs, 1
  {
    if vs == [] then [] else Encode(vs[0]) + EncodeAll(vs[1..])
  }

  /** A command is an array of bulk strings. */
  function Command(parts: seq<Bytes>): Value {
    Arr(seq(|parts|, i requires 0 <= i < |parts| => Bulk(parts[i])))
  }

  /** Lines hold no CR, and numbers and sizes fit the client's integers. */
  predicate Sendable(v: Value) {
    match v
    case Status(line) => CR !in line
    case Number(n) => -LONG_LIMIT <= n < LONG_LIMIT
    case Null => true
    case Bulk(bytes) => |bytes| < INT_LIMIT
    case Arr(items) => |items| < INT_LIMIT && forall i | i in items :: Sendable(i)
  }

  // ------------------------------------------------------------ round trip

  lemma {:induction false} LineRoundTrip(line: Bytes, rest: Bytes)
    requires CR !in line
    ensures ReadLine(line + CRLF + rest) == Ok(line, rest)
  {
    var input := line + CRLF + rest;
    if line == [] {
      assert input[2..] == rest;
    } else {
      LineRoundTrip(line[1..], rest);
      assert input[1..] == line[1..] + CRLF + rest;
      assert line == [line[0]] + line[1..];
    }
  }

  lemma HeaderRoundTrip(kind: Byte, n: int, limit: int, rest: Bytes)
    requires -limit <= n < limit
    ensures var input := [kind] + NumberBytes(n) + CRLF + rest;
            ReadLine(input[1..]) == Ok(NumberBytes(n), rest) && ParseInt(NumberBytes(n), limit) == Some(n)
  {
    var input := [kind] + NumberBytes(n) + CRLF + rest;
    ParseNumberBytes(n, limit);
    assert input[1..] == NumberBytes(n) + CRLF + rest;
    LineRoundTrip(NumberBytes(n), rest);
  }

  lemma BulkRoundTrip(bytes: Bytes, rest: Bytes)
    requires |bytes| < INT_LIMIT
    ensures Receive(Encode(Bulk(bytes)) + rest) == Ok(Bulk(bytes), rest)
  {
    var body := bytes + CRLF + rest;
    assert Encode(Bulk(bytes)) + rest == [DOLLAR] + NumberBytes(|bytes|) + CRLF + body;
    HeaderRoundTrip(DOLLAR, |bytes|, INT_LIMIT, body);
    hide NumberBytes, ParseInt, ReadLine;
    assert body[..|bytes|] == bytes && body[|bytes| + 2..] == rest;
  }

  lemma LineValueRoundTrip(v: Value, rest: Bytes)
    requires Sendable(v) && (v.Status? || v.Number? || v.Null?)
    ensures Receive(Encode(v) + rest) == Ok(v, rest)
  {
    var input := Encode(v) + rest;
    match v
    case Status(line) =>
      assert input[1..] == line + CRLF + rest;
      LineRoundTrip(line, rest);
    case Number(n) =>
      assert input == [COLON] + NumberBytes(n) + CRLF + rest;
      HeaderRoundTrip(COLON, n, LONG_LIMIT, rest);
    case Null =>
      assert input == [DOLLAR] + NumberBytes(-1) + CRLF + rest;
      HeaderRoundTrip(DOLLAR, -1, INT_LIMIT, rest);
  }

  /** Whatever bytes a value holds and whatever follows it, reading it gives it back and
      consumes exactly its bytes. */
  lemma {:induction false} RoundTrip(v: Value, rest: Bytes)
    requires Sendable(v)
    ensures Receive(Encode(v) + rest) == Ok(v, rest)
    decreases v, 0
  {
    match v
    case Bulk(bytes) => BulkRoundTrip(bytes, rest);
    case Arr(items) =>
      assert Encode(v) + rest == [STAR] + NumberBytes(|items|) + CRLF + (EncodeAll(items) + rest);
      HeaderRoundTrip(STAR, |items|, INT_LIMIT, EncodeAll(items) + rest);
      ManyRoundTrip(items, rest);
      hide NumberBytes, ParseInt, ReadLine, EncodeAll, ReceiveMany;
    case _ => LineValueRoundTrip(v, rest);
  }

  /** The forms on the wire, byte for byte: a command of one word of four letters, and replies. */
  lemma WireForms(line: Bytes, a: Byte, b: Byte, c: Byte, d: Byte)
    ensures Encode(Command([[a, b, c, d]])) == [42, 49, 13, 10, 36, 52, 13, 10, a, b, c, d, 13, 10]
    ensures Encode(Status(line)) == [43] + line + [13, 10]
    ensures Encode(Number(-7)) == [58, 45, 55, 13, 10]
    ensures CR !in line ==> Receive([45] + line + [13, 10]) == Err(RedisError(line))
  {
    OneDigit(1);
    OneDigit(4);
    OneDigit(7);
    var word := [a, b, c, d];
    hide NumberBytes, Receive, ReadLine;
    assert Encode(Bulk(word)) == [36, 52, 13, 10, a, b, c, d, 13, 10];
    assert Command([word]).items == [Bulk(word)];
    assert EncodeAll([Bulk(word)]) == Encode(Bulk(word)) + EncodeAll([]);
    if CR !in line {
      ErrorReply(line, []);
      assert [MINUS] + line + CRLF + [] == [45] + line + [13, 10];
    }
  }

  lemma OneDigit(n: int)
    requires 0 <= n < 10
    ensures NumberBytes(n) == [48 + n] && (n > 0 ==> NumberBytes(-n) == [45, 48 + n])
  {
    var s := Decimal.Numeral(n);
    assert |s| == 1 && Decimal.DigitValue(s[0]) == n;
    assert Ascii(s) == Ascii(s[..0]) + [48 + Decimal.DigitValue(s[0])];
  }

  /** An error reply is a failure that carries its line, whatever follows. */
  lemma ErrorReply(line: Bytes, rest: Bytes)
    requires CR !in line
    ensures Receive([MINUS] + line + CRLF + rest) == Err(RedisError(line))
  {
    var input := [MINUS] + line + CRLF + rest;
    assert input[1..] == line + CRLF + rest;
    LineRoundTrip(line, rest);
  }

  /** A reply of no known type is refused, and so is a number with anything but digits. */
  lemma BadReply(kind: Byte, line: Bytes, rest: Bytes)
    requires CR !in line
    ensures kind !in {PLUS, MINUS, COLON, DOLLAR, STAR} ==> Receive([kind] + line + CRLF + rest) == Err(BadType)
    ensures kind in {COLON, DOLLAR, STAR} && (exists b | b in line[if line == [] then 0 else 1..] :: !IsDigit(b)) ==>
      Receive([kind] + line + CRLF + rest) == Err(BadNumber)
  {
    var input := [kind] + line + CRLF + rest;
    assert input[1..] == line + CRLF + rest;
    LineRoundTrip(line, rest);
  }

  /** A negative length stands for an empty array. */
  lemma NegativeArray(n: int, rest: Bytes)
    requires -INT_LIMIT <= n < 0
    ensures Receive([STAR] + NumberBytes(n) + CRLF + rest) == Ok(Arr([]), rest)
    ensures Receive([DOLLAR] + NumberBytes(n) + CRLF + rest) == Ok(Null, rest)
  {
    HeaderRoundTrip(STAR, n, INT_LIMIT, rest);
    HeaderRoundTrip(DOLLAR, n, INT_LIMIT, rest);
    hide NumberBytes, ParseInt, ReadLine;
  }

  lemma BrokenBulk(length: nat, rest: Bytes)
    ensures |rest| < length ==> ReadBulk(rest, length) == Err(Eof)
    ensures |rest| >= length + 2 && rest[length..length + 2] != CRLF ==> ReadBulk(rest, length) == Err(BadTerminator)
  {
    if |rest| >= length + 2 {
      assert rest[length..length + 2] == [rest[length], rest[length + 1]];
    }
  }

  /** Numbers are digits with or without a sign, in range. */
  lemma ParseExactly(digits: Bytes, limit: int)
    requires digits != [] && limit > 0 && forall b | b in digits :: IsDigit(b)
    ensures var n: int := DigitsValue(digits);
            ParseInt(digits, limit) == (if n < limit then Some(n) else None) &&
            ParseInt([43] + digits, limit) == (if n < limit then Some(n) else None) &&
            ParseInt([45] + digits, limit) == if n <= limit then Some(-n) else None
  {
    hide DigitsValue;
    assert digits[0] in digits;
    assert ([PLUS] + digits)[1..] == digits && ([MINUS] + digits)[1..] == digits;
  }

  /** A line needs its CR LF. */
  lemma {:induction false} BrokenLine(line: Bytes, b: Byte, rest: Bytes)
    requires CR !in line && b != LF
    ensures ReadLine(line) == Err(Eof) && ReadLine(line + [13, b] + rest) == Err(BadLine)
  {
    var input := line + [13, b] + rest;
    if line != [] {
      BrokenLine(line[1..], b, rest);
      assert input[1..] == line[1..] + [13, b] + rest;
    }
  }

  /** Input that ends too early is refused as such, and so is a bulk string that does not end
      as announced. */
  lemma BrokenReply(length: nat, rest: Bytes)
    requires length < INT_LIMIT
    ensures |rest| < length ==> Receive([DOLLAR] + NumberBytes(length) + CRLF + rest) == Err(Eof)
    ensures |rest| >= length + 2 && rest[length..length + 2] != CRLF ==>
      Receive([DOLLAR] + NumberBytes(length) + CRLF + rest) == Err(BadTerminator)
  {
    BulkReads(length, rest);
    BrokenBulk(length, rest);
    hide NumberBytes, ReadBulk, Receive;
  }

  lemma DollarReply(input: Bytes, line: Bytes, n: int, rest: Bytes)
    requires input != [] && input[0] == DOLLAR && ReadLine(input[1..]) == Ok(line, rest) && ParseInt(line, INT_LIMIT) == Some(n)
    ensures Receive(input) == if n < 0 then Ok(Null, rest) else ReadBulk(rest, n)
  {
    hide ReadLine, ParseInt, ReadBulk, ReceiveMany;
  }

  lemma BulkReads(length: nat, rest: Bytes)
    requires length < INT_LIMIT
    ensures Receive([DOLLAR] + NumberBytes(length) + CRLF + rest) == ReadBulk(rest, length)
  {
    HeaderRoundTrip(DOLLAR, length, INT_LIMIT, rest);
    hide NumberBytes, ParseInt, ReadLine, ReadBulk, Receive;
    DollarReply([DOLLAR] + NumberBytes(length) + CRLF + rest, NumberBytes(length), length, rest);
  }

  /** So replies or commands sent one after the other are read in order. */
  lemma {:induction false} ManyRoundTrip(vs: seq<Value>, rest: Bytes)
    requires forall v | v in vs :: Sendable(v)
    ensures ReceiveMany(EncodeAll(vs) + rest, |vs|) == Ok(vs, rest)
    decreases vs, 1
  {
    if vs == [] {
      assert EncodeAll(vs) + rest == rest;
    } else {
      hide Encode, Receive;
      Associate(Encode(vs[0]), EncodeAll(vs[1..]), rest);
      RoundTrip(vs[0], EncodeAll(vs[1..]) + rest);
      ManyRoundTrip(vs[1..], rest);
      assert vs == [vs[0]] + vs[1..];
    }
  }

  /** Commands sent one after the other are read in order, each with its own byte strings. */
  lemma PipelinedCommands(commands: seq<seq<Bytes>>, rest: Bytes)
    requires forall parts | parts in commands :: |parts| < INT_LIMIT && forall part | part in parts :: |part| < INT_LIMIT
    ensures var values := seq(|commands|, i requires 0 <= i < |commands| => Command(commands[i]));
            ReceiveMany(EncodeAll(values) + rest, |commands|) == Ok(values, rest)
  {
    var values := seq(|commands|, i requires 0 <= i < |commands| => Command(commands[i]));
    forall v | v in values ensures Sendable(v) {
      var i :| 0 <= i < |commands| && values[i] == v;
      assert commands[i] in commands;
      assert forall item | item in v.items :: exists k :: 0 <= k < |commands[i]| && item == Bulk(commands[i][k]);
    }
    ManyRoundTrip(values, rest);
  }

  // ------------------------------------------------------------ the client

  class Connection {
    var input: Bytes
    var pos: nat
    var output: Bytes

    constructor (input: Bytes)
      ensures this.input == input && pos == 0 && output == []
    {
      this.input, pos, output := input, 0, [];
    }

    ghost predicate Valid()
      reads this
    {
      pos <= |input|
    }

    /** What has not been read. */
    ghost function Left(): Bytes
      reads this
      requires Valid()
    {
      input[pos..]
    }

    /** `send`: what it writes is the command on the wire. */
    method Send(parts: seq<Bytes>)
      modifies `output
      ensures output == old(output) + Encode(Command(parts))
    {
      ghost var items := Command(parts).items;
      output := output + [STAR] + NumberBytes(|parts|) + CRLF;
      ghost var header := output;
      hide EncodeAll, NumberBytes;
      NothingEncoded(items);
      for i := 0 to |parts|
        invariant output == header + EncodeAll(items[..i])
      {
        ghost var before := output;
        output := output + [DOLLAR] + NumberBytes(|parts[i]|) + CRLF;
        output := output + parts[i];
        output := output + [CR];
        output := output + [LF];
        BulkWritten(before, parts[i]);
        EncodeOneMore(items, i);
        Associate(header, EncodeAll(items[..i]), Encode(items[i]));
      }
      assert items[..|parts|] == items;
      CommandWritten(old(output), parts);
    }

    /** A single byte, or -1 at the end of the stream. */
    method Read() returns (b: int)
      requires Valid()
      modifies `pos
      ensures Valid()
      ensures old(Left()) == [] ==> b == -1 && Left() == []
      ensures old(Left()) != [] ==> b == old(Left())[0] && Left() == old(Left())[1..] && pos == old(pos) + 1
    {
      if pos == |input| {
        return -1;
      }
      b := input[pos];
      pos := pos + 1;
    }

    /** `line` */
    method Line() returns (r: Option<Bytes>, failure: Failure)
      requires Valid()
      modifies `pos
      ensures Valid() && pos >= old(pos)
      ensures r.Some? ==> ReadLine(old(Left())) == Ok(r.value, Left())
      ensures r.None? ==> ReadLine(old(Left())) == Err(failure)
    {
      var b: Bytes := [];
      failure := Eof;
      PrefixedNothing(ReadLine(Left()));
      while true
        invariant Valid() && pos >= old(pos) && input == old(input)
        invariant ReadLine(old(Left())) == Prefixed(b, ReadLine(Left()))
        decreases |input| - pos
      {
        ghost var left := Left();
        var c := Read();
        if c < 0 {
          return None, Eof;
        }
        if c == CR {
          var next := Read();
          if next != LF {
            return None, BadLine;
          }
          assert b + [] == b;
          return Some(b), Eof;
        }
        assert left == [left[0]] + left[1..];
        PrefixedOneMore(b, c, left[1..]);
        b := b + [c];
      }
    }

    /** A bulk string: the stream hands out its bytes in pieces of any size, as `chunk` says. */
    method Body(length: nat, chunk: nat -> nat) returns (r: Option<Value>, failure: Failure)
      requires Valid()
      modifies `pos
      ensures Valid() && pos >= old(pos)
      ensures r.Some? ==> ReadBulk(old(Left()), length) == Ok(r.value, Left())
      ensures r.None? ==> ReadBulk(old(Left()), length) == Err(failure)
    {
      var start := pos;
      var bytes: Bytes := [];
      failure := Eof;
      while |bytes| < length
        invariant Valid() && pos == start + |bytes| && |bytes| <= length && input == old(input)
        invariant bytes == input[start..pos]
        decreases length - |bytes|
      {
        var available := |input| - pos;
        if available == 0 {
          return None, Eof;
        }
        var wanted := length - |bytes|;
        var n := 1 + chunk(|bytes|);
        if n > wanted {
          n := wanted;
        }
        if n > available {
          n := available;
        }
        bytes := bytes + input[pos..pos + n];
        pos := pos + n;
      }
      ghost var left := input[start..];
      assert left[..length] == bytes;
      var cr := Read();
      if cr != CR {
        return None, BadTerminator;
      }
      var lf := Read();
      if lf != LF {
        return None, BadTerminator;
      }
      assert left[length + 2..] == input[pos..];
      return Some(Bulk(bytes)), Eof;
    }

    /** `receive` */
    method ReceiveReply(chunk: nat -> nat) returns (r: Option<Value>, failure: Failure)
      requires Valid()
      modifies `pos
      ensures Valid() && pos >= old(pos) && (r.Some? ==> pos > old(pos))
      ensures r.Some? ==> Receive(old(Left())) == Ok(r.value, Left())
      ensures r.None? ==> Receive(old(Left())) == Err(failure)
      decreases |input| - pos, 0
    {
      var kind := Read();
      if kind < 0 {
        return None, Eof;
      }
      var line;
      line, failure := Line();
      if line.None? {
        return None, failure;
      }
      if kind == PLUS {
        return Some(Status(line.value)), Eof;
      }
      if kind == MINUS {
        return None, RedisError(line.value);
      }
      if kind != COLON && kind != DOLLAR && kind != STAR {
        return None, BadType;
      }
      var n := ParseInt(line.value, if kind == COLON then LONG_LIMIT else INT_LIMIT);
      if n.None? {
        return None, BadNumber;
      }
      if kind == COLON {
        return Some(Number(n.value)), Eof;
      }
      if kind == DOLLAR {
        if n.value < 0 {
          return Some(Null), Eof;
        }
        r, failure := Body(n.value, chunk);
        return r, failure;
      }
      if n.value < 0 {
        return Some(Arr([])), Eof;
      }
      var items;
      items, failure := ReceiveReplies(n.value, chunk);
      r := if items.Some? then Some(Arr(items.value)) else None;
    }

    /** The loop over the items of an array, or over pipelined replies. */
    method ReceiveReplies(n: nat, chunk: nat -> nat) returns (r: Option<seq<Value>>, failure: Failure)
      requires Valid()
      modifies `pos
      ensures Valid() && pos >= old(pos)
      ensures r.Some? ==> ReceiveMany(old(Left()), n) == Ok(r.value, Left())
      ensures r.None? ==> ReceiveMany(old(Left()), n) == Err(failure)
      decreases |input| - pos, 1
    {
      hide Receive, ReceiveMany, Following;
      var list: seq<Value> := [];
      failure := Eof;
      FollowingNothing(ReceiveMany(Left(), n));
      for i := 0 to n
        invariant Valid() && pos >= old(pos) && |list| == i && input == old(input)
        invariant ReceiveMany(old(Left()), n) == Following(list, ReceiveMany(Left(), n - i))
      {
        ghost var left := Left();
        var item;
        item, failure := ReceiveReply(chunk);
        FollowingOneMore(list, left, n - i);
        if item.None? {
          return None, failure;
        }
        list := list + [item.value];
      }
      NoneFollow(list, Left());
      return Some(list), Eof;
    }
  }

  lemma FollowingNothing(r: Result<seq<Value>>)
    ensures Following([], r) == r
  {
    if r.Ok? {
      assert [] + r.value == r.value;
    }
  }

  lemma NoneFollow(read: seq<Value>, input: Bytes)
    ensures Following(read, ReceiveMany(input, 0)) == Ok(read, input)
  {
    assert read + [] == read;
  }

  lemma FollowingOneMore(read: seq<Value>, input: Bytes, n: nat)
    requires n > 0
    ensures Following(read, ReceiveMany(input, n)) ==
            match Receive(input)
            case Err(failure) => Err(failure)
            case Ok(value, rest) => Following(read + [value], ReceiveMany(rest, n - 1))
  {
    if Receive(input).Ok? {
      var more := ReceiveMany(Receive(input).rest, n - 1);
      if more.Ok? {
        assert read + ([Receive(input).value] + more.value) == (read + [Receive(input).value]) + more.value;
      }
    }
  }

  /** Replies of which the first have been read. */
  function Following(read: seq<Value>, r: Result<seq<Value>>): Result<seq<Value>> {
    match r
    case Ok(values, rest) => Ok(read + values, rest)
    case Err(failure) => r
  }

  /** A line whose first bytes have been read. */
  function Prefixed(read: Bytes, r: Result<Bytes>): Result<Bytes> {
    match r
    case Ok(line, rest) => Ok(read + line, rest)
    case Err(failure) => r
  }

  lemma BulkWritten(before: Bytes, bytes: Bytes)
    ensures before + [DOLLAR] + NumberBytes(|bytes|) + CRLF + bytes + [CR] + [LF] == before + Encode(Bulk(bytes))
  {
    hide NumberBytes;
    assert before + [DOLLAR] + NumberBytes(|bytes|) + CRLF + bytes + [CR] + [LF]
        == before + ([DOLLAR] + NumberBytes(|bytes|) + CRLF + bytes + [CR] + [LF]);
    assert [DOLLAR] + NumberBytes(|bytes|) + CRLF + bytes + [CR] + [LF]
        == [DOLLAR] + NumberBytes(|bytes|) + CRLF + bytes + CRLF;
  }

  lemma CommandWritten(before: Bytes, parts: seq<Bytes>)
    ensures before + [STAR] + NumberBytes(|parts|) + CRLF + EncodeAll(Command(parts).items)
         == before + Encode(Command(parts))
  {
    hide NumberBytes, EncodeAll;
    assert before + [STAR] + NumberBytes(|parts|) + CRLF + EncodeAll(Command(parts).items)
        == before + ([STAR] + NumberBytes(|parts|) + CRLF + EncodeAll(Command(parts).items));
  }

  lemma Associate(a: Bytes, b: Bytes, c: Bytes)
    ensures (a + b) + c == a + (b + c)
  {
  }

  lemma PrefixedNothing(r: Result<Bytes>)
    ensures Prefixed([], r) == r
  {
    if r.Ok? {
      assert [] + r.value == r.value;
    }
  }

  lemma PrefixedOneMore(read: Bytes, c: Byte, input: Bytes)
    requires c != CR
    ensures Prefixed(read, ReadLine([c] + input)) == Prefixed(read + [c], ReadLine(input))
  {
    var r := ReadLine(input);
    assert ([c] + input)[1..] == input;
    if r.Ok? {
      Associate(read, [c], r.value);
    }
  }

  lemma NothingEncoded(vs: seq<Value>)
    ensures EncodeAll(vs[..0]) == []
  {
  }

  lemma {:induction false} EncodeConcat(vs: seq<Value>, v: Value)
    ensures EncodeAll(vs + [v]) == EncodeAll(vs) + Encode(v)
  {
    hide Encode;
    if vs == [] {
      assert vs + [v] == [v] && EncodeAll([v][1..]) == [];
    } else {
      EncodeConcat(vs[1..], v);
      assert (vs + [v])[1..] == vs[1..] + [v] && (vs + [v])[0] == vs[0];
      Associate(Encode(vs[0]), EncodeAll(vs[1..]), Encode(v));
    }
  }

  lemma EncodeOneMore(vs: seq<Value>, i: nat)
    requires i < |vs|
    ensures EncodeAll(vs[..i + 1]) == EncodeAll(vs[..i]) + Encode(vs[i])
  {
    EncodeConcat(vs[..i], vs[i]);
    assert vs[..i + 1] == vs[..i] + [vs[i]];
  }
}
