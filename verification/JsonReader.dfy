/**
  The hand-written reader of runtime.json (the Json class of the C++ runtime). It never parses the
  document: each field is found by searching for its quoted key. The functions say what one scan
  computes from a position; the class holds the loops that advance the position.
 */
module JsonReader {
  import opened Wrappers
  import opened Text
  import opened JsonText

  datatype Error =
    | MissingKey(key: string)
    | InvalidKey(key: string)
    | Expected(c: char)
    | InvalidEscape
    | Unterminated
    | OutOfRange  // thrown by std::string::at

  // ----- what each scan computes

  function Skip(t: string, pos: nat): (r: nat)
    requires pos <= |t|
    ensures pos <= r <= |t|
    ensures forall i :: pos <= i < r ==> IsSpace(t[i])
    ensures r < |t| ==> !IsSpace(t[r])
    decreases |t| - pos
  {
    if pos < |t| && IsSpace(t[pos]) then Skip(t, pos + 1) else pos
  }

  function Unescaped(c: char): char {
    if c == 'n' then '\n' else if c == 't' then '\t' else c
  }

  /** Scans the rest of a string literal, `value` being what is already decoded. */
  function ScanBody(t: string, pos: nat, value: string): (r: Result<(string, nat), Error>)
    ensures r.Ok? ==> pos < r.value.1 <= |t|
    decreases |t| - pos
  {
    if pos >= |t| then Err(Unterminated)
    else if t[pos] == '"' then Ok((value, pos + 1))
    else if t[pos] == '\\' then
      if pos + 1 >= |t| then Err(InvalidEscape)
      else ScanBody(t, pos + 2, value + [Unescaped(t[pos + 1])])
    else ScanBody(t, pos + 1, value + [t[pos]])
  }

  function ScanString(t: string, pos: nat): (r: Result<(string, nat), Error>)
    ensures r.Ok? ==> pos < r.value.1 <= |t|
  {
    if pos >= |t| || t[pos] != '"' then Err(Expected('"')) else ScanBody(t, pos + 1, "")
  }

  /** What one turn of an array or map loop finds: its end, an item to go on from, the last item. */
  datatype Turn<T> = Close(end: nat) | More(item: T, next: nat) | Last(item: T, end: nat) | Fail(error: Error)

  /** The separator after an item: ',' goes on, `close` ends, anything else is an error. */
  function Separator<T>(t: string, pos: nat, item: T, close: char): (r: Turn<T>)
    requires pos <= |t|
    ensures r.More? ==> pos < r.next <= |t|
    ensures r.Last? ==> pos < r.end <= |t|
    ensures !r.Close?
  {
    var q := Skip(t, pos);
    if q == |t| then Fail(OutOfRange)
    else if t[q] == ',' then More(item, q + 1)
    else if t[q] == close then Last(item, q + 1)
    else Fail(Expected(close))
  }

  function ItemTurn(t: string, pos: nat): (r: Turn<string>)
    requires pos <= |t|
    ensures r.More? ==> pos < r.next <= |t|
    ensures r.Last? || r.Close? ==> pos < r.end <= |t|
  {
    var p := Skip(t, pos);
    if p == |t| then Fail(OutOfRange)
    else if t[p] == ']' then Close(p + 1)
    else
      match ScanString(t, p)
      case Err(e) => Fail(e)
      case Ok((item, next)) => Separator(t, next, item, ']')
  }

  /** Scans the rest of an array from where an item or its end may stand. */
  function ScanItems(t: string, pos: nat, values: seq<string>): (r: Result<(seq<string>, nat), Error>)
    requires pos <= |t|
    ensures r.Ok? ==> pos < r.value.1 <= |t|
    decreases |t| - pos
  {
    match ItemTurn(t, pos)
    case Fail(e) => Err(e)
    case Close(end) => Ok((values, end))
    case Last(item, end) => Ok((values + [item], end))
    case More(item, next) => ScanItems(t, next, values + [item])
  }

  /** Scans one `"key": "value"` entry of a map. */
  function ScanEntry(t: string, pos: nat): (r: Result<(Entry, nat), Error>)
    ensures r.Ok? ==> pos < r.value.1 <= |t|
  {
    match ScanString(t, pos)
    case Err(e) => Err(e)
    case Ok((key, p)) => ScanEntryValue(t, p, key)
  }

  function ScanEntryValue(t: string, pos: nat, key: string): (r: Result<(Entry, nat), Error>)
    requires pos <= |t|
    ensures r.Ok? ==> pos < r.value.1 <= |t|
  {
    var q := Skip(t, pos);
    if q == |t| || t[q] != ':' then Err(Expected(':'))
    else
      match ScanString(t, Skip(t, q + 1))
      case Err(e) => Err(e)
      case Ok((value, next)) => Ok((Entry(key, value), next))
  }

  function EntryTurn(t: string, pos: nat): (r: Turn<Entry>)
    requires pos <= |t|
    ensures r.More? ==> pos < r.next <= |t|
    ensures r.Last? || r.Close? ==> pos < r.end <= |t|
  {
    var p := Skip(t, pos);
    if p == |t| then Fail(OutOfRange)
    else if t[p] == '}' then Close(p + 1)
    else
      match ScanEntry(t, p)
      case Err(e) => Fail(e)
      case Ok((entry, next)) => Separator(t, next, entry, '}')
  }

  /** Scans the rest of a map, collecting its entries in source order. */
  function ScanEntries(t: string, pos: nat, entries: seq<Entry>): (r: Result<(seq<Entry>, nat), Error>)
    requires pos <= |t|
    ensures r.Ok? ==> pos < r.value.1 <= |t|
    decreases |t| - pos
  {
    match EntryTurn(t, pos)
    case Fail(e) => Err(e)
    case Close(end) => Ok((entries, end))
    case Last(entry, end) => Ok((entries + [entry], end))
    case More(entry, next) => ScanEntries(t, next, entries + [entry])
  }

  function QuotedKey(key: string): string { "\"" + key + "\"" }

  /** Position of the value of `key`: after the first ':' that follows the first `"key"`. */
  function ValueStart(t: string, key: string, required: bool): (r: Result<Option<nat>, Error>)
    ensures r.Ok? && r.value.Some? ==> r.value.value <= |t|
  {
    match Find(t, QuotedKey(key), 0)
    case None => if required then Err(MissingKey(key)) else Ok(None)
    case Some(p) =>
      match Find(t, ":", p + |QuotedKey(key)|)
      case None => Err(InvalidKey(key))
      case Some(colon) => Ok(Some(Skip(t, colon + 1)))
  }

  function StringAt(t: string, pos: nat): Result<string, Error> {
    if HasAt(t, pos, "null") then Ok("")
    else match ScanString(t, pos) case Err(e) => Err(e) case Ok((s, _)) => Ok(s)
  }

  function ArrayAt(t: string, pos: nat): Result<seq<string>, Error> {
    if pos >= |t| || t[pos] != '[' then Err(Expected('['))
    else match ScanItems(t, pos + 1, []) case Err(e) => Err(e) case Ok((values, _)) => Ok(values)
  }

  function MapAt(t: string, pos: nat): Result<map<string, string>, Error> {
    if pos >= |t| || t[pos] != '{' then Err(Expected('{'))
    else match ScanEntries(t, pos + 1, []) case Err(e) => Err(e) case Ok((entries, _)) => Ok(MapOf(entries))
  }

  function StringField(t: string, key: string, required: bool): Result<string, Error> {
    match ValueStart(t, key, required)
    case Err(e) => Err(e)
    case Ok(None) => Ok("")
    case Ok(Some(pos)) => StringAt(t, pos)
  }

  function ArrayField(t: string, key: string): Result<seq<string>, Error> {
    match ValueStart(t, key, true)
    case Err(e) => Err(e)
    case Ok(None) => Err(OutOfRange)
    case Ok(Some(pos)) => ArrayAt(t, pos)
  }

  function MapField(t: string, key: string, required: bool): Result<map<string, string>, Error> {
    match ValueStart(t, key, required)
    case Err(e) => Err(e)
    case Ok(None) => Ok(map[])
    case Ok(Some(pos)) => MapAt(t, pos)
  }

  // ----- the class

  class Json {
    const text: string

    constructor (text: string)
      ensures this.text == text
    {
      this.text := text;
    }

    method SkipWhitespace(start: nat) returns (pos: nat)
      requires start <= |text|
      ensures pos == Skip(text, start)
    {
      pos := start;
      while pos < |text| && IsSpace(text[pos])
        invariant start <= pos <= |text| && Skip(text, pos) == Skip(text, start)
      {
        pos := pos + 1;
      }
    }

    method ParseString(start: nat) returns (r: Result<(string, nat), Error>)
      ensures r == ScanString(text, start)
    {
      if start >= |text| || text[start] != '"' {
        return Err(Expected('"'));
      }
      var pos := start + 1;
      var value := "";
      while pos < |text|
        invariant pos <= |text| && ScanBody(text, pos, value) == ScanString(text, start)
      {
        var c := text[pos];
        pos := pos + 1;
        if c == '"' {
          return Ok((value, pos));
        }
        if c == '\\' {
          if pos >= |text| {
            return Err(InvalidEscape);
          }
          var escaped := text[pos];
          pos := pos + 1;
          if escaped == 'n' {
            value := value + ['\n'];
          } else if escaped == 't' {
            value := value + ['\t'];
          } else {
            value := value + [escaped];
          }
        } else {
          value := value + [c];
        }
      }
      return Err(Unterminated);
    }

    method FindValue(key: string, required: bool) returns (r: Result<Option<nat>, Error>)
      ensures r == ValueStart(text, key, required)
    {
      var quotedKey := QuotedKey(key);
      var found := Find(text, quotedKey, 0);
      if found.None? {
        if required {
          return Err(MissingKey(key));
        }
        return Ok(None);
      }
      var colon := Find(text, ":", found.value + |quotedKey|);
      if colon.None? {
        return Err(InvalidKey(key));
      }
      var pos := SkipWhitespace(colon.value + 1);
      return Ok(Some(pos));
    }

    method StringValue(key: string, required: bool) returns (r: Result<string, Error>)
      ensures r == StringField(text, key, required)
    {
      var start := FindValue(key, required);
      if start.Err? {
        return Err(start.error);
      }
      if start.value.None? || HasAt(text, start.value.value, "null") {
        return Ok("");
      }
      var s := ParseString(start.value.value);
      if s.Err? {
        return Err(s.error);
      }
      return Ok(s.value.0);
    }

    method StringArray(key: string) returns (r: Result<seq<string>, Error>)
      ensures r == ArrayField(text, key)
    {
      var start := FindValue(key, true);
      if start.Err? {
        return Err(start.error);
      }
      var pos := start.value.value;
      if pos >= |text| || text[pos] != '[' {
        return Err(Expected('['));
      }
      r := ArrayItems(pos + 1);
    }

    /** The loop of stringArray, from just after the opening bracket. */
    method ArrayItems(start: nat) returns (r: Result<seq<string>, Error>)
      requires 0 < start <= |text| && text[start - 1] == '['
      ensures r == ArrayAt(text, start - 1)
    {
      hide Skip, ScanString;
      var pos := start;
      var values := [];
      while true
        invariant pos <= |text|
        invariant ScanItems(text, pos, values) == ScanItems(text, start, [])
        decreases |text| - pos
      {
        ghost var turn := ItemTurn(text, pos);
        var p := SkipWhitespace(pos);
        if p == |text| {
          return Err(OutOfRange);
        }
        if text[p] == ']' {
          return Ok(values);
        }
        var item := ParseString(p);
        if item.Err? {
          return Err(item.error);
        }
        var q := SkipWhitespace(item.value.1);
        if q == |text| {
          return Err(OutOfRange);
        }
        if text[q] == ',' {
          assert turn == More(item.value.0, q + 1);
          pos, values := q + 1, values + [item.value.0];
          continue;
        }
        if text[q] != ']' {
          return Err(Expected(']'));
        }
        return Ok(values + [item.value.0]);
      }
    }

    method StringMap(key: string, required: bool) returns (r: Result<map<string, string>, Error>)
      ensures r == MapField(text, key, required)
    {
      var start := FindValue(key, required);
      if start.Err? {
        return Err(start.error);
      }
      if start.value.None? {
        return Ok(map[]);
      }
      var pos := start.value.value;
      if pos >= |text| || text[pos] != '{' {
        return Err(Expected('{'));
      }
      r := MapEntries(pos + 1);
    }

    /** One entry inside the loop of stringMap. */
    method ParseEntry(start: nat) returns (r: Result<(Entry, nat), Error>)
      ensures r == ScanEntry(text, start)
    {
      var mapKey := ParseString(start);
      if mapKey.Err? {
        return Err(mapKey.error);
      }
      var pos := SkipWhitespace(mapKey.value.1);
      if pos == |text| || text[pos] != ':' {
        return Err(Expected(':'));
      }
      pos := SkipWhitespace(pos + 1);
      var value := ParseString(pos);
      if value.Err? {
        return Err(value.error);
      }
      return Ok((Entry(mapKey.value.0, value.value.0), value.value.1));
    }

    /** The loop of stringMap, from just after the opening brace. */
    method MapEntries(start: nat) returns (r: Result<map<string, string>, Error>)
      requires 0 < start <= |text| && text[start - 1] == '{'
      ensures r == MapAt(text, start - 1)
    {
      hide MapOf, Skip, ScanString, ScanEntry;
      MapOfNone();
      var pos := start;
      var values: map<string, string> := map[];
      ghost var entries := [];
      while true
        invariant pos <= |text|
        invariant ScanEntries(text, pos, entries) == ScanEntries(text, start, []) && values == MapOf(entries)
        decreases |text| - pos
      {
        ghost var turn := EntryTurn(text, pos);
        var p := SkipWhitespace(pos);
        if p == |text| {
          return Err(OutOfRange);
        }
        if text[p] == '}' {
          return Ok(values);
        }
        var entry := ParseEntry(p);
        if entry.Err? {
          return Err(entry.error);
        }
        var q := SkipWhitespace(entry.value.1);
        if q == |text| {
          return Err(OutOfRange);
        }
        values := values[entry.value.0.key := entry.value.0.value];
        MapOfSnoc(entries, entry.value.0);
        if text[q] == ',' {
          assert turn == More(entry.value.0, q + 1);
          pos, entries := q + 1, entries + [entry.value.0];
          continue;
        }
        if text[q] != '}' {
          return Err(Expected('}'));
        }
        return Ok(values);
      }
    }
  }
}
