/** The DRISL validator (drisl.rs and its Go and TypeScript siblings): a decoder that specifies
    it, and the validator's own recursion and loops proved against that decoder. */
module Drisl {
  import opened Bytes
  import opened DrislValue

  datatype Violation =
    | TooDeep | TruncatedItem | TruncatedArgument | Indefinite | ReservedInfo | NonMinimal
    | TruncatedString | BadUtf8 | TruncatedKey | KeyNotText | DuplicateKey | UnsortedKeys
    | ForbiddenTag | TagNotBytes | CidPrefix | TruncatedFloat | NotANumber | Infinite
    | HalfFloat | SingleFloat | Undefined | BreakCode | SimpleValue | TrailingBytes
  datatype DrislError = DrislError(offset: nat, violation: Violation)
  datatype Result<+T> = Ok(value: T) | Err(error: DrislError)

  datatype Argument = Argument(value: u64, end: nat)
  datatype Parsed = Parsed(value: Value, end: nat)
  datatype ParsedItems = ParsedItems(values: seq<Value>, end: nat)
  datatype ParsedEntry = ParsedEntry(entry: Entry, keyEnd: nat, end: nat)
  datatype ParsedEntries = ParsedEntries(entries: seq<Entry>, end: nat)

  function Fail<T>(offset: nat, violation: Violation): Result<T> {
    Err(DrislError(offset, violation))
  }

  function EndOf(r: Result<Parsed>): Result<nat> {
    match r case Ok(p) => Ok(p.end) case Err(e) => Err(e)
  }

  function EndOfItems(r: Result<ParsedItems>): Result<nat> {
    match r case Ok(p) => Ok(p.end) case Err(e) => Err(e)
  }

  function EndOfEntries(r: Result<ParsedEntries>): Result<nat> {
    match r case Ok(p) => Ok(p.end) case Err(e) => Err(e)
  }

  // ---- the decoder ----

  function Width(ai: nat): nat
    requires 24 <= ai <= 27
  {
    if ai == 24 then 1 else if ai == 25 then 2 else if ai == 26 then 4 else 8
  }

  /** The least argument that needs the width selected by `ai`. */
  function Minimal(ai: nat): nat
    requires 24 <= ai <= 27
  {
    if ai == 24 then 24 else if ai == 25 then 0x100 else if ai == 26 then 0x1_0000 else U32
  }

  function Arg(data: seq<byte>, offset: nat): (r: Result<Argument>)
    requires offset < |data|
    ensures r.Ok? ==> offset < r.value.end <= |data|
  {
    var ai := data[offset] % 32;
    if ai < 24 then Ok(Argument(ai, offset + 1))
    else if ai > 27 then Fail(offset, if ai == 31 then Indefinite else ReservedInfo)
    else
      var end := offset + 1 + Width(ai);
      if end > |data| then Fail(offset, TruncatedArgument) else
        FromBigEndianRoundTrip(data[offset + 1..end]);
        Powers();
        var value: u64 := FromBigEndian(data[offset + 1..end]);
        if value < Minimal(ai) then Fail(offset, NonMinimal) else Ok(Argument(value, end))
  }

  function StringItem(data: seq<byte>, offset: nat): (r: Result<Parsed>)
    requires offset < |data| && (data[offset] / 32 == 2 || data[offset] / 32 == 3)
    ensures r.Ok? ==> offset < r.value.end <= |data|
    ensures r.Ok? ==> if data[offset] / 32 == 2 then r.value.value.ByteString? else r.value.value.Text?
  {
    match Arg(data, offset)
    case Err(e) => Err(e)
    case Ok(a) =>
      if a.end + a.value > |data| then Fail(a.end, TruncatedString) else
        var body := data[a.end..a.end + a.value];
        if data[offset] / 32 == 2 then Ok(Parsed(ByteString(body), a.end + a.value))
        else if !ValidUtf8(body) then Fail(a.end, BadUtf8)
        else Ok(Parsed(Text(body), a.end + a.value))
  }

  function SimpleItem(data: seq<byte>, offset: nat): (r: Result<Parsed>)
    requires offset < |data|
    ensures r.Ok? ==> offset < r.value.end <= |data|
  {
    var initial := data[offset];
    if initial == 0xf4 then Ok(Parsed(False, offset + 1))
    else if initial == 0xf5 then Ok(Parsed(True, offset + 1))
    else if initial == 0xf6 then Ok(Parsed(Null, offset + 1))
    else if initial == 0xfb then
      if offset + 9 > |data| then Fail(offset, TruncatedFloat) else
        var bits := data[offset + 1..offset + 9];
        if IsNan(bits) then Fail(offset, NotANumber)
        else if NonFinite(bits) then Fail(offset, Infinite)
        else Ok(Parsed(Float(bits), offset + 9))
    else Fail(offset, if initial == 0xf9 then HalfFloat
                      else if initial == 0xfa then SingleFloat
                      else if initial == 0xf7 then Undefined
                      else if initial == 0xff then BreakCode
                      else SimpleValue)
  }

  /** Recursion levels left below the depth cap. */
  function Levels(depth: nat): nat {
    if depth > MAX_DEPTH then 0 else MAX_DEPTH + 1 - depth
  }

  function Item(data: seq<byte>, offset: nat, depth: nat): (r: Result<Parsed>)
    ensures r.Ok? ==> offset < r.value.end <= |data|
    ensures r.Ok? && data[offset] / 32 == 2 ==> r.value.value.ByteString?
    ensures r.Ok? && data[offset] / 32 == 3 ==> r.value.value.Text?
    decreases Levels(depth), 0
  {
    if depth > MAX_DEPTH then Fail(offset, TooDeep)
    else if offset >= |data| then Fail(offset, TruncatedItem)
    else
      var major := data[offset] / 32;
      if major == 2 || major == 3 then StringItem(data, offset)
      else if major == 7 then SimpleItem(data, offset)
      else
        match Arg(data, offset)
        case Err(e) => Err(e)
        case Ok(a) =>
          if major == 0 then Ok(Parsed(UInt(a.value), a.end))
          else if major == 1 then Ok(Parsed(NegInt(a.value), a.end))
          else if major == 4 then
            match Items(data, a.end, depth + 1, a.value)
            case Err(e) => Err(e)
            case Ok(p) => Ok(Parsed(Array(p.values), p.end))
          else if major == 5 then
            match Entries(data, a.end, depth + 1, a.value, None)
            case Err(e) => Err(e)
            case Ok(p) => Ok(Parsed(Map(p.entries), p.end))
          else TagItem(data, offset, depth, a)
  }

  function TagItem(data: seq<byte>, offset: nat, depth: nat, a: Argument): (r: Result<Parsed>)
    requires offset < a.end <= |data| && depth <= MAX_DEPTH
    ensures r.Ok? ==> a.end < r.value.end <= |data|
    decreases Levels(depth + 1), 1
  {
    if a.value != 42 then Fail(offset, ForbiddenTag)
    else if a.end >= |data| || data[a.end] / 32 != 2 then Fail(a.end, TagNotBytes)
    else
      match Item(data, a.end, depth + 1)
      case Err(e) => Err(e)
      case Ok(p) =>
        if p.value.b == [] || p.value.b[0] != 0
        then Fail(p.end - |p.value.b|, CidPrefix) else Ok(Parsed(Cid(p.value.b[1..]), p.end))
  }

  function Items(data: seq<byte>, offset: nat, depth: nat, count: nat): (r: Result<ParsedItems>)
    requires offset <= |data|
    ensures r.Ok? ==> offset + count <= r.value.end <= |data| && |r.value.values| == count
    decreases Levels(depth), count + 1
  {
    if count == 0 then Ok(ParsedItems([], offset)) else
      match Item(data, offset, depth)
      case Err(e) => Err(e)
      case Ok(p) =>
        match Items(data, p.end, depth, count - 1)
        case Err(e) => Err(e)
        case Ok(q) => Ok(ParsedItems([p.value] + q.values, q.end))
  }

  function Entries(data: seq<byte>, offset: nat, depth: nat, count: nat, prev: Option<seq<byte>>)
    : (r: Result<ParsedEntries>)
    requires offset <= |data|
    ensures r.Ok? ==> offset + count <= r.value.end <= |data| && |r.value.entries| == count
    decreases Levels(depth), count + 2
  {
    if count == 0 then Ok(ParsedEntries([], offset)) else
      match OneEntry(data, offset, depth, prev)
      case Err(e) => Err(e)
      case Ok(p) =>
        match Entries(data, p.end, depth, count - 1, Some(data[offset..p.keyEnd]))
        case Err(e) => Err(e)
        case Ok(q) => Ok(ParsedEntries([p.entry] + q.entries, q.end))
  }

  function OneEntry(data: seq<byte>, offset: nat, depth: nat, prev: Option<seq<byte>>): (r: Result<ParsedEntry>)
    ensures r.Ok? ==> offset < r.value.keyEnd < r.value.end <= |data|
    decreases Levels(depth), 1
  {
    if offset >= |data| then Fail(offset, TruncatedKey)
    else if data[offset] / 32 != 3 then Fail(offset, KeyNotText)
    else
      match Item(data, offset, depth)
      case Err(e) => Err(e)
      case Ok(k) =>
        var order := if prev.None? then Less else Compare(prev.value, data[offset..k.end]);
        if order == Equal then Fail(offset, DuplicateKey)
        else if order == Greater then Fail(offset, UnsortedKeys)
        else
          match Item(data, k.end, depth)
          case Err(e) => Err(e)
          case Ok(v) => Ok(ParsedEntry(Entry(k.value.t, v.value), k.end, v.end))
  }

  // ---- the validator, as written ----

  method ReadArg(data: seq<byte>, offset: nat) returns (r: Result<Argument>)
    requires offset < |data|
    ensures r == Arg(data, offset)
  {
    var ai := data[offset] % 32;
    if ai < 24 {
      return Ok(Argument(ai, offset + 1));
    }
    if ai > 27 {
      if ai == 31 { return Fail(offset, Indefinite); }
      return Fail(offset, ReservedInfo);
    }
    var width := Width(ai);
    if offset + 1 + width > |data| {
      return Fail(offset, TruncatedArgument);
    }
    // At most eight bytes are shifted in, so the u64 accumulator never overflows.
    var value := 0;
    for i := 0 to width
      invariant value == FromBigEndian(data[offset + 1..offset + 1 + i])
    {
      value := value * 256 + data[offset + 1 + i];
      assert data[offset + 1..offset + 2 + i][..i] == data[offset + 1..offset + 1 + i];
    }
    FromBigEndianRoundTrip(data[offset + 1..offset + 1 + width]);
    Powers();
    if value < Minimal(ai) {
      return Fail(offset, NonMinimal);
    }
    return Ok(Argument(value, offset + 1 + width));
  }

  method ValidateItem(data: seq<byte>, offset: nat, depth: nat) returns (r: Result<nat>)
    ensures r == EndOf(Item(data, offset, depth))
    decreases Levels(depth), 0
  {
    if depth > MAX_DEPTH { return Fail(offset, TooDeep); }
    if offset >= |data| { return Fail(offset, TruncatedItem); }
    var initial := data[offset];
    var major := initial / 32;
    if major == 0 || major == 1 {
      var a := ReadArg(data, offset);
      match a {
        case Err(e) => return Err(e);
        case Ok(arg) => return Ok(arg.end);
      }
    } else if major == 2 || major == 3 {
      r := ValidateString(data, offset);
    } else if major == 4 {
      var a := ReadArg(data, offset);
      match a {
        case Err(e) => return Err(e);
        case Ok(arg) =>
          var cursor, i := arg.end, 0;
          while i < arg.value
            invariant 0 <= i <= arg.value && cursor <= |data|
            invariant EndOfItems(Items(data, arg.end, depth + 1, arg.value))
                   == EndOfItems(Items(data, cursor, depth + 1, arg.value - i))
            decreases |data| - cursor
          {
            var item := ValidateItem(data, cursor, depth + 1);
            if item.Err? { return item; }
            cursor, i := item.value, i + 1;
          }
          return Ok(cursor);
      }
    } else if major == 5 {
      r := ValidateMap(data, offset, depth);
    } else if major == 6 {
      r := ValidateTag(data, offset, depth);
    } else {
      r := ValidateSimple(data, offset);
    }
  }

  method ValidateString(data: seq<byte>, offset: nat) returns (r: Result<nat>)
    requires offset < |data| && (data[offset] / 32 == 2 || data[offset] / 32 == 3)
    ensures r == EndOf(StringItem(data, offset))
  {
    var a := ReadArg(data, offset);
    match a {
      case Err(e) => return Err(e);
      case Ok(arg) =>
        if arg.end + arg.value > |data| { return Fail(arg.end, TruncatedString); }
        if data[offset] / 32 == 3 && !ValidUtf8(data[arg.end..arg.end + arg.value]) {
          return Fail(arg.end, BadUtf8);
        }
        return Ok(arg.end + arg.value);
    }
  }

  method ValidateMap(data: seq<byte>, offset: nat, depth: nat) returns (r: Result<nat>)
    requires offset < |data| && data[offset] / 32 == 5 && depth <= MAX_DEPTH
    ensures r == EndOf(Item(data, offset, depth))
    decreases Levels(depth + 1), 2
  {
    hide OneEntry, Arg, StringItem, SimpleItem;
    var a := ReadArg(data, offset);
    match a {
      case Err(e) => return Err(e);
      case Ok(arg) =>
        var cursor, i := arg.end, 0;
        var prevKey: Option<seq<byte>> := None;
        while i < arg.value
          invariant 0 <= i <= arg.value && cursor <= |data|
          invariant EndOfEntries(Entries(data, arg.end, depth + 1, arg.value, None))
                 == EndOfEntries(Entries(data, cursor, depth + 1, arg.value - i, prevKey))
          decreases |data| - cursor
        {
          var entry, keyEnd := ValidateEntry(data, cursor, depth + 1, prevKey);
          if entry.Err? { return entry; }
          prevKey := Some(data[cursor..keyEnd]);
          cursor, i := entry.value, i + 1;
        }
        return Ok(cursor);
    }
  }

  /** One turn of the map loop: key, order check against the previous key, value. */
  method ValidateEntry(data: seq<byte>, keyStart: nat, depth: nat, prevKey: Option<seq<byte>>)
    returns (r: Result<nat>, keyEnd: nat)
    ensures match OneEntry(data, keyStart, depth, prevKey)
            case Err(e) => r == Err(e)
            case Ok(p) => r == Ok(p.end) && keyEnd == p.keyEnd
    decreases Levels(depth), 1
  {
    keyEnd := keyStart;
    if keyStart >= |data| { return Fail(keyStart, TruncatedKey), keyEnd; }
    if data[keyStart] / 32 != 3 { return Fail(keyStart, KeyNotText), keyEnd; }
    var key := ValidateItem(data, keyStart, depth);
    if key.Err? { return key, keyEnd; }
    keyEnd := key.value;
    if prevKey.Some? {
      match Compare(prevKey.value, data[keyStart..keyEnd]) {
        case Equal => return Fail(keyStart, DuplicateKey), keyEnd;
        case Greater => return Fail(keyStart, UnsortedKeys), keyEnd;
        case Less =>
      }
    }
    r := ValidateItem(data, keyEnd, depth);
  }

  method ValidateTag(data: seq<byte>, offset: nat, depth: nat) returns (r: Result<nat>)
    requires offset < |data| && data[offset] / 32 == 6 && depth <= MAX_DEPTH
    ensures r == EndOf(Item(data, offset, depth))
    decreases Levels(depth + 1), 1
  {
    var a := ReadArg(data, offset);
    match a {
      case Err(e) => return Err(e);
      case Ok(arg) =>
        if arg.value != 42 { return Fail(offset, ForbiddenTag); }
        if arg.end >= |data| || data[arg.end] / 32 != 2 { return Fail(arg.end, TagNotBytes); }
        var content := ValidateItem(data, arg.end, depth + 1);
        if content.Err? { return content; }
        var head := ReadArg(data, arg.end);
        var bodyStart := head.value.end;
        if content.value == bodyStart || data[bodyStart] != 0 { return Fail(bodyStart, CidPrefix); }
        return content;
    }
  }

  method ValidateSimple(data: seq<byte>, offset: nat) returns (r: Result<nat>)
    requires offset < |data|
    ensures r == EndOf(SimpleItem(data, offset))
  {
    var initial := data[offset];
    if 0xf4 <= initial <= 0xf6 { return Ok(offset + 1); }
    if initial == 0xfb {
      if offset + 9 > |data| { return Fail(offset, TruncatedFloat); }
      var bits := data[offset + 1..offset + 9];
      if IsNan(bits) { return Fail(offset, NotANumber); }
      if NonFinite(bits) { return Fail(offset, Infinite); }
      return Ok(offset + 9);
    }
    if initial == 0xf9 { return Fail(offset, HalfFloat); }
    if initial == 0xfa { return Fail(offset, SingleFloat); }
    if initial == 0xf7 { return Fail(offset, Undefined); }
    if initial == 0xff { return Fail(offset, BreakCode); }
    return Fail(offset, SimpleValue);
  }
}
