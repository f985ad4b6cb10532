// src/server/user_registry.cpp: the user store, a text file of "name:hex" lines.

module Registry {
  import opened ByteStrings
  import opened FileIo

  // Hex encoding of stored passwords.

  function HexDigit(n: nat): (c: Byte)
    requires n < 16
  {
    if n < 10 then ('0' as int + n) as char else ('A' as int + n - 10) as char
  }

  predicate IsUpperHex(c: Byte) {
    '0' <= c <= '9' || 'A' <= c <= 'F'
  }

  /** Two upper-case digits a byte. */
  function Hex(raw: Bytes): (hex: Bytes)
    ensures |hex| == 2 * |raw|
    ensures forall i :: 0 <= i < |hex| ==> IsUpperHex(hex[i])
  {
    if raw == [] then []
    else
      var n := raw[|raw| - 1] as int;
      Hex(raw[..|raw| - 1]) + [HexDigit(n / 16), HexDigit(n % 16)]
  }

  /** The value of a hex digit of either case, or -1. */
  function DigitValue(c: Byte): int {
    if '0' <= c <= '9' then c as int - '0' as int
    else if 'A' <= c <= 'F' then c as int - 'A' as int + 10
    else if 'a' <= c <= 'f' then c as int - 'a' as int + 10
    else -1
  }

  /** `istringstream(pair) >> hex >> byte` cut down to a byte, also for text that no registry wrote. */
  function PairValue(a: Byte, b: Byte): (n: int)
    ensures 0 <= n < 256
  {
    var x, y := DigitValue(a), DigitValue(b);
    if IsSpace(a) || a == '+' then (if y < 0 then 0 else y)
    else if a == '-' then (if y <= 0 then 0 else 256 - y)
    else if x < 0 then 0
    else if y < 0 then x
    else 16 * x + y
  }

  /** A trailing odd digit is ignored. */
  function Unhex(hex: Bytes): Bytes {
    if |hex| < 2 then [] else [PairValue(hex[0], hex[1]) as char] + Unhex(hex[2..])
  }

  lemma DigitRoundTrip(n: nat)
    requires n < 16
    ensures DigitValue(HexDigit(n)) == n
  {
  }

  lemma {:induction false} UnhexAppend(hex: Bytes, a: Byte, b: Byte)
    requires |hex| % 2 == 0
    ensures Unhex(hex + [a, b]) == Unhex(hex) + [PairValue(a, b) as char]
  {
    if hex == [] {
      assert hex + [a, b] == [a, b];
    } else {
      assert (hex + [a, b])[2..] == hex[2..] + [a, b];
      UnhexAppend(hex[2..], a, b);
    }
  }

  /** from_hex undoes to_hex on every byte string. */
  lemma {:induction false} HexRoundTrip(raw: Bytes)
    ensures Unhex(Hex(raw)) == raw
  {
    if raw != [] {
      var n := raw[|raw| - 1] as int;
      DigitRoundTrip(n / 16);
      DigitRoundTrip(n % 16);
      HexRoundTrip(raw[..|raw| - 1]);
      UnhexAppend(Hex(raw[..|raw| - 1]), HexDigit(n / 16), HexDigit(n % 16));
    }
  }

  function Lower(c: Byte): Byte {
    if 'A' <= c <= 'Z' then (c as int + 32) as char else c
  }

  /** Digits of either case are read alike. */
  lemma {:induction false} CaseDoesNotMatter(raw: Bytes)
    ensures Unhex(seq(2 * |raw|, i requires 0 <= i < 2 * |raw| => Lower(Hex(raw)[i]))) == raw
  {
    var lower := seq(2 * |raw|, i requires 0 <= i < 2 * |raw| => Lower(Hex(raw)[i]));
    if raw != [] {
      var init, n := raw[..|raw| - 1], raw[|raw| - 1] as int;
      var a, b := Lower(HexDigit(n / 16)), Lower(HexDigit(n % 16));
      assert lower == seq(2 * |init|, i requires 0 <= i < 2 * |init| => Lower(Hex(init)[i])) + [a, b];
      CaseDoesNotMatter(init);
      UnhexAppend(lower[..2 * |init|], a, b);
      assert PairValue(a, b) == n;
    }
  }

  method ToHex(raw: Bytes) returns (hex: Bytes)
    ensures hex == Hex(raw)
  {
    hex := [];
    for i := 0 to |raw|
      invariant hex == Hex(raw[..i])
    {
      assert raw[..i + 1][..i] == raw[..i];
      var n := raw[i] as int;
      hex := hex + [HexDigit(n / 16), HexDigit(n % 16)];
    }
    assert raw[..|raw|] == raw;
  }

  method FromHex(hex: Bytes) returns (out: Bytes)
    ensures out == Unhex(hex)
  {
    out := [];
    var i := 0;
    while i + 1 < |hex|
      invariant 0 <= i <= |hex|
      invariant out + Unhex(hex[i..]) == Unhex(hex)
    {
      assert hex[i..][2..] == hex[i + 2..];
      out := out + [PairValue(hex[i], hex[i + 1]) as char];
      i := i + 2;
    }
  }

  // Records.

  datatype Record = Record(name: Bytes, value: Bytes)

  function RecordLine(r: Record): Bytes {
    r.name + ":" + r.value
  }

  /** Blank lines and lines without a colon are skipped. */
  function Parse(lines: seq<Bytes>): seq<Record> {
    if lines == [] then []
    else
      var init, line := Parse(lines[..|lines| - 1]), lines[|lines| - 1];
      var colon := Find(line, ':');
      if colon == |line| then init else init + [Record(line[..colon], line[colon + 1..])]
  }

  function Print(records: seq<Record>): seq<Bytes> {
    seq(|records|, i requires 0 <= i < |records| => RecordLine(records[i]))
  }

  function RecordsOf(text: Bytes): seq<Record> {
    Parse(Lines(text))
  }

  function TextOf(records: seq<Record>): Bytes {
    Text(Print(records))
  }

  predicate CleanName(name: Bytes) {
    ':' !in name && '\n' !in name
  }

  lemma {:induction false} ParsePrint(records: seq<Record>)
    requires forall i :: 0 <= i < |records| ==> ':' !in records[i].name
    ensures Parse(Print(records)) == records
  {
    if records != [] {
      var n := |records| - 1;
      assert Print(records)[..n] == Print(records[..n]);
      ParsePrint(records[..n]);
      var r, line := records[n], RecordLine(records[n]);
      FindInConcat(r.name, ':', r.value);
      assert line[..|r.name|] == r.name && line[|r.name| + 1..] == r.value;
      assert records == records[..n] + [r];
    }
  }

  /** Lines without a colon, blank ones among them, count for nothing wherever they are. */
  lemma {:induction false} JunkIsSkipped(before: seq<Bytes>, junk: Bytes, after: seq<Bytes>)
    requires ':' !in junk
    ensures Parse(before + [junk] + after) == Parse(before + after)
    decreases |after|
  {
    var lines, rest := before + [junk] + after, before + after;
    if after == [] {
      assert lines[..|before|] == before && rest == before;
    } else {
      var n := |after| - 1;
      assert lines[..|lines| - 1] == before + [junk] + after[..n];
      assert rest[..|rest| - 1] == before + after[..n];
      JunkIsSkipped(before, junk, after[..n]);
    }
  }

  /** Records with clean names and newline-free values survive the file, in order. */
  lemma RecordRoundTrip(records: seq<Record>)
    requires forall i :: 0 <= i < |records| ==> CleanName(records[i].name) && '\n' !in records[i].value
    ensures RecordsOf(TextOf(records)) == records
  {
    ReadBack(Print(records));
    ParsePrint(records);
  }

  /** The first record of that name, as the linear search finds it. */
  function Lookup(records: seq<Record>, name: Bytes): Option<Bytes> {
    if records == [] then None
    else if records[0].name == name then Some(records[0].value)
    else Lookup(records[1..], name)
  }

  lemma {:induction false} LookupMisses(records: seq<Record>, name: Bytes)
    requires forall i :: 0 <= i < |records| ==> records[i].name != name
    ensures Lookup(records, name) == None
  {
    if records != [] {
      LookupMisses(records[1..], name);
    }
  }

  class UserRegistry {
    const file: File

    /** A fresh instance keeps nothing but its file: this is also a restart. */
    constructor (file: File)
      ensures this.file == file
    {
      this.file := file;
    }

    method LoadRecords() returns (records: seq<Record>)
      ensures records == RecordsOf(file.Stored())
    {
      var lines := file.ReadAllLines();
      records := [];
      for i := 0 to |lines|
        invariant records == Parse(lines[..i])
      {
        assert lines[..i + 1][..i] == lines[..i];
        if lines[i] != [] {
          var colon := Find(lines[i], ':');
          if colon != |lines[i]| {
            records := records + [Record(lines[i][..colon], lines[i][colon + 1..])];
          }
        }
      }
      assert lines[..|lines|] == lines;
    }

    method SaveRecords(records: seq<Record>, disk: Disk) returns (ok: bool)
      modifies file
      ensures ok <==> Written(disk, |records|)
      ensures file.content == if ok then Some(TextOf(records)) else old(file.content)
    {
      var lines := [];
      for i := 0 to |records|
        invariant lines == Print(records[..i])
      {
        lines := lines + [RecordLine(records[i])];
      }
      assert records[..|records|] == records;
      ok := file.AtomicWriteLines(lines, disk);
    }

    method FindUserLocked(name: Bytes) returns (value: Option<Bytes>)
      ensures value == Lookup(RecordsOf(file.Stored()), name)
    {
      var records := LoadRecords();
      for i := 0 to |records|
        invariant Lookup(records, name) == Lookup(records[i..], name)
      {
        if records[i].name == name {
          return Some(records[i].value);
        }
        assert records[i..][1..] == records[i + 1..];
      }
      return None;
    }

    method RegisterUser(name: Bytes, encPassword: Bytes, disk: Disk) returns (ok: bool)
      modifies file
      ensures (ok, file.Stored()) == Registered(old(file.Stored()), name, encPassword, disk)
    {
      var found := FindUserLocked(name);
      if found.Some? {
        return false;
      }
      var records := LoadRecords();
      var hex := ToHex(encPassword);
      records := records + [Record(name, hex)];
      ok := SaveRecords(records, disk);
    }

    method Authenticate(name: Bytes, encPassword: Bytes) returns (ok: bool)
      ensures ok <==> Authenticated(file.Stored(), name, encPassword)
    {
      var found := FindUserLocked(name);
      if found.None? {
        return false;
      }
      var raw := FromHex(found.value);
      return raw == encPassword;
    }
  }

  /** register_user on the file text: its answer and the new text. */
  function Registered(text: Bytes, name: Bytes, encPassword: Bytes, disk: Disk): (bool, Bytes) {
    var records := RecordsOf(text) + [Record(name, Hex(encPassword))];
    if Lookup(RecordsOf(text), name).Some? || !Written(disk, |records|) then (false, text)
    else (true, TextOf(records))
  }

  /** authenticate on the file text. */
  predicate Authenticated(text: Bytes, name: Bytes, encPassword: Bytes) {
    var found := Lookup(RecordsOf(text), name);
    found.Some? && Unhex(found.value) == encPassword
  }

  // Refinement: the file stands for a map that only grows.

  type Users = map<Bytes, Bytes>

  function UsersOf(records: seq<Record>): Users {
    if records == [] then map[]
    else
      var last := records[|records| - 1];
      UsersOf(records[..|records| - 1])[last.name := Unhex(last.value)]
  }

  /** The map that the file stands for. */
  function UsersIn(text: Bytes): Users {
    UsersOf(RecordsOf(text))
  }

  /** Records as the registry writes them: clean names, each new, with hex passwords. */
  predicate Tidy(records: seq<Record>) {
    records == [] ||
    (var init, last := records[..|records| - 1], records[|records| - 1];
     Tidy(init) && CleanName(last.name) && last.name !in UsersOf(init) && last.value == Hex(Unhex(last.value)))
  }

  /** The file is empty or holds nothing but what the registry wrote. */
  predicate WellFormed(text: Bytes) {
    Tidy(RecordsOf(text)) && text == TextOf(RecordsOf(text))
  }

  lemma EmptyFileIsWellFormed()
    ensures WellFormed([]) && UsersIn([]) == map[]
  {
  }

  lemma TidyRoundTrip(records: seq<Record>)
    requires Tidy(records)
    ensures RecordsOf(TextOf(records)) == records
  {
    TidyFields(records);
    RecordRoundTrip(records);
  }

  lemma {:induction false} TidyFields(records: seq<Record>)
    requires Tidy(records)
    ensures forall i :: 0 <= i < |records| ==> CleanName(records[i].name) && '\n' !in records[i].value
  {
    if records != [] {
      TidyFields(records[..|records| - 1]);
      HexIsNewlineFree(Unhex(records[|records| - 1].value));
    }
  }

  lemma HexIsNewlineFree(raw: Bytes)
    ensures '\n' !in Hex(raw)
  {
  }

  lemma {:induction false} LookupAppend(records: seq<Record>, r: Record, name: Bytes)
    ensures Lookup(records + [r], name) ==
            if Lookup(records, name).Some? then Lookup(records, name)
            else if r.name == name then Some(r.value) else None
  {
    if records == [] {
      assert records + [r] == [r];
    } else {
      assert (records + [r])[1..] == records[1..] + [r];
      LookupAppend(records[1..], r, name);
    }
  }

  /** The linear search over the records is a lookup in the map. */
  lemma {:induction false} LookupRefines(records: seq<Record>, name: Bytes)
    requires Tidy(records)
    ensures Lookup(records, name) == if name in UsersOf(records) then Some(Hex(UsersOf(records)[name])) else None
  {
    if records != [] {
      var init, last := records[..|records| - 1], records[|records| - 1];
      assert records == init + [last];
      LookupRefines(init, name);
      LookupAppend(init, last, name);
    }
  }

  /** register_user inserts exactly when the name is new and the write gets through. */
  lemma RegisterRefines(text: Bytes, name: Bytes, encPassword: Bytes, disk: Disk)
    requires WellFormed(text) && CleanName(name)
    ensures var (ok, text') := Registered(text, name, encPassword, disk);
            && WellFormed(text')
            && (ok <==> name !in UsersIn(text) && Written(disk, |RecordsOf(text)| + 1))
            && UsersIn(text') == if ok then UsersIn(text)[name := encPassword] else UsersIn(text)
  {
    var records, r := RecordsOf(text), Record(name, Hex(encPassword));
    LookupRefines(records, name);
    if name !in UsersOf(records) {
      assert (records + [r])[..|records|] == records;
      HexRoundTrip(encPassword);
      assert Tidy(records + [r]);
      TidyRoundTrip(records + [r]);
    }
  }

  /** authenticate holds exactly for the password in the map. */
  lemma AuthenticateRefines(text: Bytes, name: Bytes, encPassword: Bytes)
    requires WellFormed(text)
    ensures Authenticated(text, name, encPassword) <==> name in UsersIn(text) && UsersIn(text)[name] == encPassword
  {
    LookupRefines(RecordsOf(text), name);
    if name in UsersIn(text) {
      HexRoundTrip(UsersIn(text)[name]);
    }
  }

  /** Names read from a file never hold a colon or a newline. */
  lemma {:induction false} ParsedNamesAreClean(lines: seq<Bytes>)
    requires forall i :: 0 <= i < |lines| ==> '\n' !in lines[i]
    ensures forall i :: 0 <= i < |Parse(lines)| ==> CleanName(Parse(lines)[i].name)
  {
    if lines != [] {
      ParsedNamesAreClean(lines[..|lines| - 1]);
    }
  }

  /** A newly written user can be found again exactly when the name is clean. */
  lemma FoundAfterRegistration(text: Bytes, name: Bytes, encPassword: Bytes, disk: Disk)
    requires WellFormed(text) && Registered(text, name, encPassword, disk).0
    ensures Authenticated(Registered(text, name, encPassword, disk).1, name, encPassword) <==> CleanName(name)
  {
    var text' := Registered(text, name, encPassword, disk).1;
    if CleanName(name) {
      RegisterRefines(text, name, encPassword, disk);
      AuthenticateRefines(text', name, encPassword);
    } else {
      ParsedNamesAreClean(Lines(text'));
      LookupMisses(RecordsOf(text'), name);
    }
  }
}
