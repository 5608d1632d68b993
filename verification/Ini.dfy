/** murlog.ini: printing a configuration and reading it back line by line. */
module Ini {
  import opened Prelude

  // ---------------------------------------------------------------- fields

  datatype Kind = StringKind | IntKind | BoolKind

  datatype Value = Str(s: string) | Int(n: int) | Bool(b: bool)

  datatype Field = Field(tag: string, kind: Kind)

  /** The tagged fields of a configuration in the order in which they are declared. */
  const FIELDS: seq<Field> := [
    Field("db_driver", StringKind), Field("data_dir", StringKind), Field("media_path", StringKind),
    Field("web_dir", StringKind), Field("listen", StringKind), Field("storage_type", StringKind),
    Field("s3_bucket", StringKind), Field("s3_region", StringKind), Field("s3_endpoint", StringKind),
    Field("s3_access_key", StringKind), Field("s3_secret_key", StringKind), Field("s3_public_url", StringKind),
    Field("worker_min_concurrency", IntKind), Field("worker_max_concurrency", IntKind),
    Field("worker_job_retention_days", IntKind), Field("trusted_proxy", BoolKind)]

  type Values = map<string, Value>

  const INT_MIN: int := -0x8000_0000_0000_0000
  const INT_MAX: int := 0x7fff_ffff_ffff_ffff

  predicate HasKind(v: Value, k: Kind) {
    match k
    case StringKind => v.Str?
    case IntKind => v.Int? && INT_MIN <= v.n <= INT_MAX
    case BoolKind => v.Bool?
  }

  predicate IsZero(v: Value) {
    v == Str("") || v == Int(0) || v == Bool(false)
  }

  /** A tag that can stand before an equals sign: nothing in it is trimmed, cut or a comment. */
  predicate Plain(tag: string) {
    && tag != "" && tag[0] != '#' && ByteLength(tag) < 64
    && forall i :: 0 <= i < |tag| ==> !IsSpace(tag[i]) && tag[i] != '='
  }

  ghost predicate IsTable(fields: seq<Field>) {
    && (forall i :: 0 <= i < |fields| ==> Plain(fields[i].tag))
    && (forall i, j :: 0 <= i < j < |fields| ==> fields[i].tag != fields[j].tag)
  }

  ghost predicate Fits(fields: seq<Field>, vals: Values) {
    forall i :: 0 <= i < |fields| ==> fields[i].tag in vals && HasKind(vals[fields[i].tag], fields[i].kind)
  }

  // ---------------------------------------------------------------- text

  /** White space as Unicode has it. */
  predicate IsSpace(ch: char) {
    var c := ch as int;
    9 <= c <= 13 || c == 32 || c == 0x85 || c == 0xA0 || c == 0x1680 || 0x2000 <= c <= 0x200A
    || c == 0x2028 || c == 0x2029 || c == 0x202F || c == 0x205F || c == 0x3000
  }

  function TrimLeft(s: string): string {
    if s != "" && IsSpace(s[0]) then TrimLeft(s[1..]) else s
  }

  function TrimRight(s: string): string {
    if s != "" && IsSpace(s[|s| - 1]) then TrimRight(s[..|s| - 1]) else s
  }

  function Trim(s: string): string {
    TrimRight(TrimLeft(s))
  }

  /** Neither end is white space. */
  predicate Trimmed(s: string) {
    s == "" || (!IsSpace(s[0]) && !IsSpace(s[|s| - 1]))
  }

  function CharBytes(ch: char): nat {
    var c := ch as int;
    if c < 0x80 then 1 else if c < 0x800 then 2 else if c < 0x1_0000 then 3 else 4
  }

  /** The length in UTF-8. */
  function ByteLength(s: string): nat {
    if s == "" then 0 else CharBytes(s[0]) + ByteLength(s[1..])
  }

  /** From this many bytes on, a line does not fit into the scanner. */
  const LINE_LIMIT: nat := 65536

  function DropReturn(s: string): string {
    if s != "" && s[|s| - 1] == '\r' then s[..|s| - 1] else s
  }

  function Digits(n: nat): string {
    if n < 10 then [(n + '0' as int) as char] else Digits(n / 10) + [(n % 10 + '0' as int) as char]
  }

  function Decimal(n: int): string {
    if n < 0 then "-" + Digits(-n) else Digits(n)
  }

  predicate AllDigits(s: string) {
    forall i :: 0 <= i < |s| ==> '0' <= s[i] <= '9'
  }

  function ValueOf(s: string): nat
    requires AllDigits(s)
  {
    if s == "" then 0 else 10 * ValueOf(s[..|s| - 1]) + (s[|s| - 1] as int - '0' as int)
  }

  /** strconv.Atoi: one sign at most, digits, and a value of 64 bits. */
  function Atoi(s: string): Option<int> {
    var digits := if s != "" && (s[0] == '-' || s[0] == '+') then s[1..] else s;
    if digits == "" || !AllDigits(digits) then None
    else
      var size: int := ValueOf(digits);
      var n := if s[0] == '-' then -size else size;
      if INT_MIN <= n <= INT_MAX then Some(n) else None
  }

  // ---------------------------------------------------------------- printing

  function Show(v: Value): string {
    match v
    case Str(s) => s
    case Int(n) => Decimal(n)
    case Bool(b) => if b then "true" else "false"
  }

  /** One line for a field, none for a zero value. */
  function Chunk(tag: string, v: Value): string {
    if IsZero(v) then "" else tag + " = " + Show(v) + "\n"
  }

  ghost function Printed(fields: seq<Field>, vals: Values): string
    requires Fits(fields, vals)
  {
    if fields == [] then ""
    else Printed(fields[..|fields| - 1], vals) + Chunk(fields[|fields| - 1].tag, vals[fields[|fields| - 1].tag])
  }

  // ---------------------------------------------------------------- reading

  datatype Error = MissingEquals(line: nat) | NotANumber(line: nat, key: string) | LineTooLong

  /** Where reading has got to: the values so far, and the number of lines or the error. */
  datatype Progress = Reached(vals: Values, lines: nat) | Stopped(vals: Values, error: Error)

  function Assign(vals: Values, kind: Kind, key: string, val: string, line: nat): Progress {
    match kind
    case StringKind => Reached(vals[key := Str(val)], line)
    case IntKind =>
      (match Atoi(val)
       case Some(n) => Reached(vals[key := Int(n)], line)
       case None => Stopped(vals, NotANumber(line, key)))
    case BoolKind => Reached(vals[key := Bool(val == "true" || val == "1")], line)
  }

  function KindOf(fields: seq<Field>, key: string): Option<Kind> {
    if fields == [] then None
    else if fields[|fields| - 1].tag == key then Some(fields[|fields| - 1].kind)
    else KindOf(fields[..|fields| - 1], key)
  }

  /** The effect of one line, given without its line end. */
  function ReadLine(fields: seq<Field>, raw: string, vals: Values, line: nat): Progress {
    var text := Trim(DropReturn(raw));
    if text == "" || text[0] == '#' then Reached(vals, line)
    else
      var eq := IndexOf(text, '=');
      if eq == |text| then Stopped(vals, MissingEquals(line))
      else
        Pair(fields, Trim(text[..eq]), Trim(text[eq + 1..]), vals, line)
  }

  function Pair(fields: seq<Field>, key: string, val: string, vals: Values, line: nat): Progress {
    match KindOf(fields, key)
    case None => Reached(vals, line)
    case Some(kind) => Assign(vals, kind, key, val, line)
  }

  /** Reading line after line up to the first error. */
  function Read(fields: seq<Field>, text: string, vals: Values, lines: nat): Progress
    decreases |text|
  {
    if text == "" then Reached(vals, lines)
    else
      var end := IndexOf(text, '\n');
      if ByteLength(text[..end]) >= LINE_LIMIT then Stopped(vals, LineTooLong)
      else match ReadLine(fields, text[..end], vals, lines + 1)
        case Stopped(v, e) => Stopped(v, e)
        case Reached(v, n) => Read(fields, if end == |text| then "" else text[end + 1..], v, n)
  }

  /** Reading on from where a line has got to. */
  function Onward(fields: seq<Field>, step: Progress, next: string): Progress {
    match step
    case Stopped(v, e) => Stopped(v, e)
    case Reached(v, n) => Read(fields, next, v, n)
  }

  // ---------------------------------------------------------------- the table of murlog.ini

  lemma {:induction false} ByteLengthOfAscii(s: string)
    requires forall i :: 0 <= i < |s| ==> s[i] as int < 0x80
    ensures ByteLength(s) == |s|
  {
    if s != "" { ByteLengthOfAscii(s[1..]); }
  }

  predicate TagText(s: string) {
    0 < |s| < 64 && forall i :: 0 <= i < |s| ==> 'a' <= s[i] <= 'z' || s[i] == '_' || s[i] == '3'
  }

  lemma TagTextIsPlain(s: string)
    requires TagText(s)
    ensures Plain(s)
  {
    ByteLengthOfAscii(s);
  }

  lemma TagTexts1()
    ensures TagText("db_driver") && TagText("data_dir") && TagText("media_path") && TagText("web_dir")
    ensures TagText("listen") && TagText("storage_type")
  {
  }

  lemma TagTexts2()
    ensures TagText("s3_bucket") && TagText("s3_region") && TagText("s3_endpoint")
    ensures TagText("s3_access_key") && TagText("s3_secret_key") && TagText("s3_public_url")
  {
  }

  lemma TagTexts3()
    ensures TagText("worker_min_concurrency") && TagText("worker_max_concurrency")
    ensures TagText("worker_job_retention_days") && TagText("trusted_proxy")
  {
  }

  /** The place of a tag in the table, told from its length and two of its characters. */
  function Place(tag: string): int {
    match |tag|
    case 9 => if tag[4] == 'r' then 0 else if tag[4] == 'u' then 6 else 7
    case 8 => 1
    case 10 => 2
    case 7 => 3
    case 6 => 4
    case 12 => 5
    case 11 => 8
    case 13 => if tag[4] == 'c' then 9 else if tag[4] == 'e' then 10 else if tag[4] == 'u' then 11 else 15
    case 22 => if tag[8] == 'i' then 12 else 13
    case _ => 14
  }

  lemma Places()
    ensures forall i :: 0 <= i < |FIELDS| ==> Place(FIELDS[i].tag) == i
  {
  }

  /** The tags of the configuration are plain and distinct. */
  lemma FieldsAreTable()
    ensures IsTable(FIELDS)
  {
    TagTexts1();
    TagTexts2();
    TagTexts3();
    forall i | 0 <= i < |FIELDS| ensures Plain(FIELDS[i].tag) { TagTextIsPlain(FIELDS[i].tag); }
    Places();
  }

  lemma {:induction false} BlanksAt(fields: seq<Field>, i: nat)
    requires i < |fields| && forall j, k :: 0 <= j < k < |fields| ==> fields[j].tag != fields[k].tag
    ensures fields[i].tag in Blanks(fields) && Blanks(fields)[fields[i].tag] == ZeroOf(fields[i].kind)
  {
    if i < |fields| - 1 { BlanksAt(fields[..|fields| - 1], i); }
  }

  lemma {:induction false} BlanksHold(fields: seq<Field>, tag: string)
    requires tag in Blanks(fields)
    ensures IsZero(Blanks(fields)[tag])
    ensures exists i :: 0 <= i < |fields| && fields[i].tag == tag
  {
    if fields[|fields| - 1].tag != tag {
      BlanksHold(fields[..|fields| - 1], tag);
      var i :| 0 <= i < |fields| - 1 && fields[..|fields| - 1][i].tag == tag;
      assert fields[i].tag == tag;
    }
  }

  // ---------------------------------------------------------------- blank and default values

  function ZeroOf(k: Kind): Value {
    match k
    case StringKind => Str("")
    case IntKind => Int(0)
    case BoolKind => Bool(false)
  }

  function Blanks(fields: seq<Field>): Values {
    if fields == [] then map[]
    else Blanks(fields[..|fields| - 1])[fields[|fields| - 1].tag := ZeroOf(fields[|fields| - 1].kind)]
  }

  function BlankValues(): Values {
    Blanks(FIELDS)
  }

  function DefaultValues(cgi: bool): Values {
    BlankValues()["db_driver" := Str("sqlite")]["data_dir" := Str("./data")]["media_path" := Str("./media")]
      ["web_dir" := Str(if cgi then "./dist" else "./web/dist")]["listen" := Str(":8080")]["storage_type" := Str("fs")]
  }

  /** The fields of the table, and no others, have a value. */
  ghost predicate Exactly(fields: seq<Field>, vals: Values) {
    && (forall i :: 0 <= i < |fields| ==> fields[i].tag in vals)
    && (forall tag :: tag in vals ==> exists i :: 0 <= i < |fields| && fields[i].tag == tag)
  }

  ghost predicate ZeroFrom(fields: seq<Field>, vals: Values, k: nat) {
    forall i :: k <= i < |fields| ==> fields[i].tag in vals && vals[fields[i].tag] == ZeroOf(fields[i].kind)
  }

  lemma BlanksByTag(fields: seq<Field>)
    requires IsTable(fields)
    ensures Exactly(fields, Blanks(fields)) && ZeroFrom(fields, Blanks(fields), 0)
  {
    forall i | 0 <= i < |fields|
      ensures fields[i].tag in Blanks(fields) && Blanks(fields)[fields[i].tag] == ZeroOf(fields[i].kind)
    {
      BlanksAt(fields, i);
    }
    forall tag | tag in Blanks(fields) ensures exists i :: 0 <= i < |fields| && fields[i].tag == tag {
      BlanksHold(fields, tag);
    }
  }

  /** Writing field k leaves the fields and the zeros behind it. */
  lemma OneWritten(fields: seq<Field>, vals: Values, k: nat, v: Value)
    requires IsTable(fields) && k < |fields| && Exactly(fields, vals) && ZeroFrom(fields, vals, k)
    ensures Exactly(fields, vals[fields[k].tag := v]) && ZeroFrom(fields, vals[fields[k].tag := v], k + 1)
  {
  }

  function SixUpdates(fields: seq<Field>, v: Values, s: seq<string>): Values
    requires |s| == 6 <= |fields|
  {
    v[fields[0].tag := Str(s[0])][fields[1].tag := Str(s[1])][fields[2].tag := Str(s[2])]
     [fields[3].tag := Str(s[3])][fields[4].tag := Str(s[4])][fields[5].tag := Str(s[5])]
  }

  function DefaultTexts(cgi: bool): (s: seq<string>)
    ensures |s| == 6
  {
    ["sqlite", "./data", "./media", if cgi then "./dist" else "./web/dist", ":8080", "fs"]
  }

  lemma DefaultsAreSix(cgi: bool)
    ensures DefaultValues(cgi) == SixUpdates(FIELDS, BlankValues(), DefaultTexts(cgi))
    ensures forall i :: 0 <= i < 6 ==> FIELDS[i].kind == StringKind
  {
  }

  predicate HasText(vals: Values, tag: string, text: string) {
    tag in vals && vals[tag] == Str(text)
  }

  lemma SixShape(fields: seq<Field>, v0: Values, s: seq<string>)
    requires IsTable(fields) && |s| == 6 <= |fields| && Exactly(fields, v0) && ZeroFrom(fields, v0, 0)
    ensures Exactly(fields, SixUpdates(fields, v0, s)) && ZeroFrom(fields, SixUpdates(fields, v0, s), 6)
  {
    var v1 := v0[fields[0].tag := Str(s[0])];
    var v2 := v1[fields[1].tag := Str(s[1])];
    var v3 := v2[fields[2].tag := Str(s[2])];
    var v4 := v3[fields[3].tag := Str(s[3])];
    var v5 := v4[fields[4].tag := Str(s[4])];
    OneWritten(fields, v0, 0, Str(s[0]));
    OneWritten(fields, v1, 1, Str(s[1]));
    OneWritten(fields, v2, 2, Str(s[2]));
    OneWritten(fields, v3, 3, Str(s[3]));
    OneWritten(fields, v4, 4, Str(s[4]));
    OneWritten(fields, v5, 5, Str(s[5]));
  }

  lemma SixTexts(fields: seq<Field>, v0: Values, s: seq<string>)
    requires IsTable(fields) && |s| == 6 <= |fields|
    ensures var v := SixUpdates(fields, v0, s);
            && HasText(v, fields[0].tag, s[0]) && HasText(v, fields[1].tag, s[1]) && HasText(v, fields[2].tag, s[2])
            && HasText(v, fields[3].tag, s[3]) && HasText(v, fields[4].tag, s[4]) && HasText(v, fields[5].tag, s[5])
  {
  }

  lemma DefaultsShape(cgi: bool)
    ensures Exactly(FIELDS, DefaultValues(cgi)) && ZeroFrom(FIELDS, DefaultValues(cgi), 6)
  {
    FieldsAreTable();
    BlanksByTag(FIELDS);
    DefaultsAreSix(cgi);
    SixShape(FIELDS, BlankValues(), DefaultTexts(cgi));
  }

  lemma NamedByTag(v: Values, fields: seq<Field>, s: seq<string>, cgi: bool)
    requires fields == FIELDS && s == DefaultTexts(cgi)
    requires HasText(v, fields[0].tag, s[0]) && HasText(v, fields[1].tag, s[1]) && HasText(v, fields[2].tag, s[2])
    requires HasText(v, fields[3].tag, s[3]) && HasText(v, fields[4].tag, s[4]) && HasText(v, fields[5].tag, s[5])
    ensures Named(v, cgi)
  {
  }

  lemma SixNamed(fields: seq<Field>, v0: Values, s: seq<string>, cgi: bool)
    requires IsTable(fields) && fields == FIELDS && s == DefaultTexts(cgi)
    ensures Named(SixUpdates(fields, v0, s), cgi)
  {
    SixTexts(fields, v0, s);
    NamedByTag(SixUpdates(fields, v0, s), fields, s, cgi);
  }

  lemma DefaultsByName(cgi: bool)
    ensures Named(DefaultValues(cgi), cgi)
  {
    FieldsAreTable();
    DefaultsAreSix(cgi);
    SixNamed(FIELDS, BlankValues(), DefaultTexts(cgi), cgi);
  }

  /** The six fields that have a default. */
  predicate Named(v: Values, cgi: bool) {
    && HasText(v, "db_driver", "sqlite") && HasText(v, "data_dir", "./data") && HasText(v, "media_path", "./media")
    && HasText(v, "web_dir", if cgi then "./dist" else "./web/dist")
    && HasText(v, "listen", ":8080") && HasText(v, "storage_type", "fs")
  }

  // ---------------------------------------------------------------- the configuration

  /** What assigning a text to a field of some kind does to the values. */
  ghost predicate FieldSet(a: Values, b: Values, kind: Kind, key: string, val: string, line: nat, error: Option<Error>) {
    && (forall k :: k != key ==> (k in b <==> k in a) && (k in a ==> b[k] == a[k]))
    && (kind.StringKind? ==> error.None? && key in b && b[key] == Str(val))
    && (kind.BoolKind? ==> error.None? && key in b && b[key] == Bool(val in {"true", "1"}))
    && (kind.IntKind? && Atoi(val).Some? ==> error.None? && key in b && b[key] == Int(Atoi(val).value))
    && (kind.IntKind? && Atoi(val).None? ==> error == Some(NotANumber(line, key)) && b == a)
  }

  /** key is the tag of a field of that kind. */
  ghost predicate IsField(fields: seq<Field>, key: string, kind: Kind) {
    exists i :: 0 <= i < |fields| && fields[i] == Field(key, kind)
  }

  /** What one line does, trimmed to text: nothing when it is blank or a comment, an error without an
      equals sign; otherwise the first equals sign parts the key from the value, and a key that no field
      has is passed over. */
  ghost predicate LineDone(fields: seq<Field>, a: Values, b: Values, text: string, line: nat, error: Option<Error>) {
    && (text == "" || text[0] == '#' ==> error.None? && b == a)
    && (text != "" && text[0] != '#' && Free(text, '=') ==> error == Some(MissingEquals(line)) && b == a)
    && forall eq :: text != "" && text[0] != '#' && 0 <= eq < |text| && text[eq] == '=' && Free(text[..eq], '=') ==>
         DoneAt(fields, a, b, text, eq, line, error)
  }

  ghost predicate DoneAt(fields: seq<Field>, a: Values, b: Values, text: string, eq: nat, line: nat, error: Option<Error>)
    requires eq < |text|
  {
    PairDone(fields, a, b, Trim(text[..eq]), Trim(text[eq + 1..]), line, error)
  }

  ghost predicate PairDone(fields: seq<Field>, a: Values, b: Values, key: string, val: string, line: nat, error: Option<Error>) {
    if forall i :: 0 <= i < |fields| ==> fields[i].tag != key then error.None? && b == a
    else exists kind :: IsField(fields, key, kind) && FieldSet(a, b, kind, key, val, line, error)
  }

  lemma DoneAtEquals(fields: seq<Field>, a: Values, b: Values, text: string, eq: nat, line: nat, error: Option<Error>)
    requires text != "" && text[0] != '#' && eq < |text| && eq == IndexOf(text, '=')
    requires DoneAt(fields, a, b, text, eq, line, error)
    ensures LineDone(fields, a, b, text, line, error)
  {
    assert text[eq] == '=' && !Free(text, '=');
    forall e | 0 <= e < |text| && text[e] == '=' && Free(text[..e], '=')
      ensures DoneAt(fields, a, b, text, e, line, error)
    {
      FirstEquals(text, e);
    }
  }

  lemma DoneWithout(fields: seq<Field>, a: Values, text: string, line: nat)
    ensures text == "" || text[0] == '#' ==> LineDone(fields, a, a, text, line, None)
    ensures text != "" && text[0] != '#' && IndexOf(text, '=') == |text| ==>
              LineDone(fields, a, a, text, line, Some(MissingEquals(line)))
  {
  }

  lemma {:induction false} KindIsOfField(fields: seq<Field>, key: string)
    ensures KindOf(fields, key).None? <==> forall i :: 0 <= i < |fields| ==> fields[i].tag != key
    ensures KindOf(fields, key).Some? ==> IsField(fields, key, KindOf(fields, key).value)
  {
    if fields != [] {
      var front := fields[..|fields| - 1];
      KindIsOfField(front, key);
      assert forall i :: 0 <= i < |front| ==> front[i] == fields[i];
    }
  }

  lemma FirstEquals(text: string, eq: nat)
    requires eq < |text| && text[eq] == '=' && Free(text[..eq], '=')
    ensures IndexOf(text, '=') == eq
  {
    forall k | 0 <= k < eq ensures text[k] != '=' { assert text[..eq][k] == text[k]; }
    IndexIs(text, '=', eq);
  }

  class Config {
    var vals: Values
    const path: string
    const fields: seq<Field>

    /** Exactly the sixteen fields, each with the zero of its kind. */
    constructor Blank(path: string)
      ensures this.path == path && fields == FIELDS
      ensures Exactly(FIELDS, vals) && ZeroFrom(FIELDS, vals, 0)
      ensures vals == BlankValues()
    {
      this.path, fields := path, FIELDS;
      vals := BlankValues();
      new;
      FieldsAreTable();
      BlanksByTag(FIELDS);
    }

    /** Six fields have a default and the others are zero. Under CGI the web files lie beside the
        program. */
    constructor Defaults(path: string, cgi: bool)
      ensures this.path == path && fields == FIELDS
      ensures Exactly(FIELDS, vals) && ZeroFrom(FIELDS, vals, 6)
      ensures Named(vals, cgi)
      ensures vals == DefaultValues(cgi)
    {
      this.path, fields := path, FIELDS;
      vals := DefaultValues(cgi);
      new;
      DefaultsShape(cgi);
      DefaultsByName(cgi);
    }

    /** The text of the file, or nothing without a path. */
    method Save() returns (file: Option<string>)
      requires Fits(fields, vals)
      ensures file == if path == "" then None else Some(Printed(fields, vals))
    {
      if path == "" { return None; }
      var text := "";
      for i := 0 to |fields|
        invariant text == Printed(fields[..i], vals)
      {
        var tag := fields[i].tag;
        assert fields[..i + 1][..i] == fields[..i];
        if !IsZero(vals[tag]) {
          text := text + (tag + " = " + Show(vals[tag]) + "\n");
        } else {
          assert text + "" == text;
        }
      }
      assert fields[..|fields|] == fields;
      file := Some(text);
    }

    /** What one key and value do to the field of that name. */
    method SetField(kind: Kind, key: string, val: string, lineNum: nat) returns (error: Option<Error>)
      modifies this
      ensures Assign(old(vals), kind, key, val, lineNum) ==
                if error.Some? then Stopped(vals, error.value) else Reached(vals, lineNum)
      ensures FieldSet(old(vals), vals, kind, key, val, lineNum, error)
    {
      match kind {
        case StringKind => vals := vals[key := Str(val)];
        case IntKind =>
          var n := Atoi(val);
          if n.None? { return Some(NotANumber(lineNum, key)); }
          vals := vals[key := Int(n.value)];
        case BoolKind => vals := vals[key := Bool(val == "true" || val == "1")];
      }
      return None;
    }

    /** A key that no field has is passed over. */
    method TakePair(key: string, val: string, lineNum: nat) returns (error: Option<Error>)
      modifies this
      ensures Pair(fields, key, val, old(vals), lineNum) ==
                if error.Some? then Stopped(vals, error.value) else Reached(vals, lineNum)
      ensures PairDone(fields, old(vals), vals, key, val, lineNum, error)
    {
      var kind := KindOf(fields, key);
      KindIsOfField(fields, key);
      if kind.None? { return None; }
      error := SetField(kind.value, key, val, lineNum);
    }

    /** What one line does. */
    method TakeLine(raw: string, lineNum: nat) returns (error: Option<Error>)
      modifies this
      ensures ReadLine(fields, raw, old(vals), lineNum) ==
                if error.Some? then Stopped(vals, error.value) else Reached(vals, lineNum)
      ensures LineDone(fields, old(vals), vals, Trim(DropReturn(raw)), lineNum, error)
    {
      var line := Trim(DropReturn(raw));
      DoneWithout(fields, vals, line, lineNum);
      if line == "" || line[0] == '#' { return None; }
      var eq := IndexOf(line, '=');
      if eq == |line| { return Some(MissingEquals(lineNum)); }
      error := TakePair(Trim(line[..eq]), Trim(line[eq + 1..]), lineNum);
      DoneAtEquals(fields, old(vals), vals, line, eq, lineNum, error);
    }

    method ParseINI(data: string) returns (error: Option<Error>)
      modifies this
      ensures Read(fields, data, old(vals), 0).vals == vals
      ensures error == (match Read(fields, data, old(vals), 0) case Stopped(_, e) => Some(e) case Reached(_, _) => None)
    {
      ghost var whole := Read(fields, data, vals, 0);
      var rest, lineNum := data, 0;
      while rest != ""
        invariant whole == Read(fields, rest, vals, lineNum)
        decreases |rest|
      {
        var end := IndexOf(rest, '\n');
        var raw := rest[..end];
        if ByteLength(raw) >= LINE_LIMIT { return Some(LineTooLong); }
        var next := if end == |rest| then "" else rest[end + 1..];
        lineNum := lineNum + 1;
        ghost var step := ReadLine(fields, raw, vals, lineNum);
        assert whole == Onward(fields, step, next);
        error := TakeLine(raw, lineNum);
        if error.Some? { return; }
        rest := next;
      }
      return None;
    }
  }
}
