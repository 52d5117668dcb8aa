/** The bounded JSON guard of the MQTT ingress: a flat bracket scanner and an explicit
    worklist, against recursive definitions over JSON texts and trees. */
module JsonGuard {
  import opened Options

  const MAX_DEPTH := 16
  const MAX_NODES := 2048
  const MAX_STRING := 4096

  /** A decoded JSON tree. Strings are code points, because a Python string may hold a lone
      surrogate; `finite` says whether a number survives conversion to a double. */
  datatype Json =
    | Null
    | Bool(value: bool)
    | Number(finite: bool)
    | Str(text: seq<int>)
    | Arr(items: seq<Json>)
    | Obj(members: seq<Field>)

  datatype Field = Field(key: seq<int>, value: Json)

  /** Nesting of containers; a scalar has none. */
  function Nesting(j: Json): nat
    decreases j, 1
  {
    match j
    case Arr(items) => 1 + NestingAll(items)
    case Obj(members) => 1 + NestingFields(members)
    case _ => 0
  }

  function NestingAll(items: seq<Json>): nat
    decreases items, 0
  {
    if items == [] then 0 else Max(Nesting(items[0]), NestingAll(items[1..]))
  }

  function NestingFields(members: seq<Field>): nat
    decreases members, 0
  {
    if members == [] then 0 else Max(Nesting(members[0].value), NestingFields(members[1..]))
  }

  // ---------------------------------------------------------------- legal spellings

  /** One unit of a string literal: section 7 of RFC 8259. */
  datatype Piece = Plain(c: char) | Escape(letter: char) | Unicode(hex: string)

  /** A JSON text with its whitespace, sections 4 and 5 of RFC 8259. An atom is a literal
      name or a number, kept together with the scalar it denotes. */
  datatype Spelling =
    | Atom(token: string, scalar: Json)
    | Quoted(pieces: seq<Piece>)
    | Array(gap: string, elements: seq<Element>)
    | Object(gap: string, entries: seq<Entry>)

  datatype Element = Element(before: string, item: Spelling, after: string)

  datatype Entry = Entry(before: string, key: seq<Piece>, colon: string, gap: string, item: Spelling, after: string)

  predicate Blank(s: string) { forall c | c in s :: c in " \t\n\r" }

  predicate HexDigit(c: char) { '0' <= c <= '9' || 'a' <= c <= 'f' || 'A' <= c <= 'F' }

  predicate LegalPiece(p: Piece)
  {
    match p
    case Plain(c) => ' ' <= c && c != '"' && c != '\\'
    case Escape(letter) => letter in "\"\\/bfnrt"
    case Unicode(hex) => |hex| == 4 && forall c | c in hex :: HexDigit(c)
  }

  /** Every literal name and number of RFC 8259 is such a token; only the absence of
      quotes and brackets matters here. */
  predicate LegalToken(t: string) { t != "" && forall c | c in t :: c !in "\"\\[]{}" }

  predicate Legal(v: Spelling)
    decreases v, 1
  {
    match v
    case Atom(token, scalar) => LegalToken(token) && (scalar.Null? || scalar.Bool? || scalar.Number?)
    case Quoted(pieces) => forall p | p in pieces :: LegalPiece(p)
    case Array(gap, elements) => Blank(gap) && LegalElements(elements)
    case Object(gap, entries) => Blank(gap) && LegalEntries(entries)
  }

  predicate LegalElements(es: seq<Element>)
    decreases es, 0
  {
    es != [] ==> Blank(es[0].before) && Legal(es[0].item) && Blank(es[0].after) && LegalElements(es[1..])
  }

  predicate LegalEntries(es: seq<Entry>)
    decreases es, 0
  {
    es != [] ==>
      var e := es[0];
      && Blank(e.before) && Blank(e.colon) && Blank(e.gap) && Blank(e.after)
      && (forall p | p in e.key :: LegalPiece(p))
      && Legal(e.item) && LegalEntries(es[1..])
  }

  function WritePieces(ps: seq<Piece>): string
  {
    if ps == [] then ""
    else (match ps[0]
          case Plain(c) => [c]
          case Escape(letter) => ['\\', letter]
          case Unicode(hex) => "\\u" + hex) + WritePieces(ps[1..])
  }

  function WriteQuoted(ps: seq<Piece>): string { "\"" + (WritePieces(ps) + "\"") }

  function Write(v: Spelling): string
    decreases v, 1
  {
    match v
    case Atom(token, _) => token
    case Quoted(pieces) => WriteQuoted(pieces)
    case Array(gap, elements) => "[" + ((if elements == [] then gap else WriteElements(elements)) + "]")
    case Object(gap, entries) => "{" + ((if entries == [] then gap else WriteEntries(entries)) + "}")
  }

  function WriteElements(es: seq<Element>): string
    decreases es, 0
  {
    if es == [] then ""
    else es[0].before + (Write(es[0].item) + (es[0].after + (if |es| == 1 then "" else "," + WriteElements(es[1..]))))
  }

  function WriteEntries(es: seq<Entry>): string
    decreases es, 0
  {
    if es == [] then ""
    else
      var e := es[0];
      e.before + (WriteQuoted(e.key) + (e.colon + (":" + (e.gap + (Write(e.item) + (e.after
      + (if |es| == 1 then "" else "," + WriteEntries(es[1..]))))))))
  }

  // ---------------------------------------------------------------- what a spelling denotes

  function HexValue(c: char): int
  {
    if '0' <= c <= '9' then c as int - '0' as int
    else if 'a' <= c <= 'f' then c as int - 'a' as int + 10
    else c as int - 'A' as int + 10
  }

  function Unit(p: Piece): int
  {
    match p
    case Plain(c) => c as int
    case Escape(letter) =>
      (match letter case 'b' => 8 case 'f' => 12 case 'n' => 10 case 'r' => 13 case 't' => 9 case _ => letter as int)
    case Unicode(hex) =>
      if |hex| == 4 then
        ((HexValue(hex[0]) * 16 + HexValue(hex[1])) * 16 + HexValue(hex[2])) * 16 + HexValue(hex[3])
      else 0
  }

  /** Two escaped surrogates in a row stand for one code point. */
  predicate SurrogatePair(ps: seq<Piece>)
  {
    |ps| >= 2 && ps[0].Unicode? && ps[1].Unicode? && 0xD800 <= Unit(ps[0]) < 0xDC00 && 0xDC00 <= Unit(ps[1]) < 0xE000
  }

  function Decode(ps: seq<Piece>): seq<int>
  {
    if ps == [] then []
    else if SurrogatePair(ps) then
      [0x10000 + (Unit(ps[0]) - 0xD800) * 0x400 + (Unit(ps[1]) - 0xDC00)] + Decode(ps[2..])
    else [Unit(ps[0])] + Decode(ps[1..])
  }

  function Meaning(v: Spelling): Json
    decreases v, 1
  {
    match v
    case Atom(_, scalar) => scalar
    case Quoted(pieces) => Str(Decode(pieces))
    case Array(_, elements) => Arr(ElementMeanings(elements))
    case Object(_, entries) => Obj(EntryMeanings(entries))
  }

  function ElementMeanings(es: seq<Element>): seq<Json>
    decreases es, 0
  {
    if es == [] then [] else [Meaning(es[0].item)] + ElementMeanings(es[1..])
  }

  function EntryMeanings(es: seq<Entry>): seq<Field>
    decreases es, 0
  {
    if es == [] then [] else [Field(Decode(es[0].key), Meaning(es[0].item))] + EntryMeanings(es[1..])
  }

  // ---------------------------------------------------------------- every text can be spelled

  function HexDigitOf(n: int, upper: bool): (c: char)
    requires 0 <= n < 16
    ensures HexDigit(c) && HexValue(c) == n
  {
    (if n < 10 then '0' as int + n else (if upper then 'A' as int else 'a' as int) + n - 10) as char
  }

  lemma HexParts(n: int)
    requires 0 <= n < 0x100
    ensures 0 <= n / 16 < 16 && 0 <= n % 16 < 16 && n / 16 * 16 + n % 16 == n
  {
  }

  lemma ByteParts(n: int)
    requires 0 <= n < 0x10000
    ensures 0 <= n / 0x100 < 0x100 && 0 <= n % 0x100 < 0x100 && n / 0x100 * 0x100 + n % 0x100 == n
  {
  }

  function EscapeUnit(n: int, upper: bool): (p: Piece)
    requires 0 <= n < 0x10000
  {
    ByteParts(n);
    HexParts(n / 0x100);
    HexParts(n % 0x100);
    var high, low := n / 0x100, n % 0x100;
    Unicode([HexDigitOf(high / 16, upper), HexDigitOf(high % 16, upper), HexDigitOf(low / 16, upper),
      HexDigitOf(low % 16, upper)])
  }

  lemma EscapeIsUnit(n: int, upper: bool)
    requires 0 <= n < 0x10000
    ensures LegalPiece(EscapeUnit(n, upper)) && EscapeUnit(n, upper).Unicode? && Unit(EscapeUnit(n, upper)) == n
  {
    hide HexDigitOf, HexValue;
    ByteParts(n);
    HexParts(n / 0x100);
    HexParts(n % 0x100);
  }

  predicate CodePoint(c: int) { 0 <= c <= 0x10FFFF && !(0xD800 <= c < 0xE000) }

  /** A text in escapes only, with surrogate pairs beyond the basic plane (section 7 of RFC 8259). */
  function Escaped(text: seq<int>, upper: bool): seq<Piece>
    requires forall c | c in text :: CodePoint(c)
  {
    if text == [] then []
    else
      assert CodePoint(text[0]);
      if text[0] < 0x10000 then [EscapeUnit(text[0], upper)] + Escaped(text[1..], upper)
      else
        PairParts(text[0]);
        [EscapeUnit(HighUnit(text[0]), upper), EscapeUnit(LowUnit(text[0]), upper)] + Escaped(text[1..], upper)
  }

  /** Every text of Unicode has a legal spelling, and reading it gives the text back. */
  lemma {:induction false} SpellingIsReadBack(text: seq<int>, upper: bool)
    requires forall c | c in text :: CodePoint(c)
    ensures forall p | p in Escaped(text, upper) :: LegalPiece(p)
    ensures Decode(Escaped(text, upper)) == text
  {
    hide Decode, EscapeUnit, LegalPiece, HighUnit, LowUnit;
    if text == [] {
      NothingDecodes();
    } else {
      var c, rest := text[0], Escaped(text[1..], upper);
      SpellingIsReadBack(text[1..], upper);
      assert CodePoint(c);
      if c < 0x10000 { OneUnit(c, upper, rest); } else { TwoUnits(c, upper, rest); }
      assert [c] + text[1..] == text;
    }
  }

  lemma NothingDecodes()
    ensures Decode([]) == []
  {
  }

  lemma OneUnit(c: int, upper: bool, rest: seq<Piece>)
    requires CodePoint(c) && c < 0x10000
    ensures LegalPiece(EscapeUnit(c, upper)) && Decode([EscapeUnit(c, upper)] + rest) == [c] + Decode(rest)
  {
    hide EscapeUnit, Unit, LegalPiece;
    EscapeIsUnit(c, upper);
    assert ([EscapeUnit(c, upper)] + rest)[1..] == rest;
  }

  lemma PairParts(c: int)
    requires 0x10000 <= c <= 0x10FFFF
    ensures 0 <= (c - 0x10000) / 0x400 < 0x400 && 0 <= (c - 0x10000) % 0x400 < 0x400
    ensures (c - 0x10000) / 0x400 * 0x400 + (c - 0x10000) % 0x400 == c - 0x10000
  {
  }

  function HighUnit(c: int): int { 0xD800 + (c - 0x10000) / 0x400 }

  function LowUnit(c: int): int { 0xDC00 + (c - 0x10000) % 0x400 }

  lemma TwoUnits(c: int, upper: bool, rest: seq<Piece>)
    requires 0x10000 <= c <= 0x10FFFF
    ensures 0 <= HighUnit(c) < 0x10000 && 0 <= LowUnit(c) < 0x10000
    ensures LegalPiece(EscapeUnit(HighUnit(c), upper)) && LegalPiece(EscapeUnit(LowUnit(c), upper))
    ensures Decode([EscapeUnit(HighUnit(c), upper), EscapeUnit(LowUnit(c), upper)] + rest) == [c] + Decode(rest)
  {
    hide EscapeUnit, Unit, LegalPiece;
    PairParts(c);
    var high, low := HighUnit(c), LowUnit(c);
    EscapeIsUnit(high, upper);
    EscapeIsUnit(low, upper);
    var ps := [EscapeUnit(high, upper), EscapeUnit(low, upper)] + rest;
    assert ps[2..] == rest && SurrogatePair(ps);
  }

  /** Two escapes are one code point exactly if they are a high and a low surrogate in that order; otherwise
      each stands for itself, so that a lone surrogate stays one. */
  lemma PairsExactly(a: int, b: int, upper: bool)
    requires 0 <= a < 0x10000 && 0 <= b < 0x10000
    ensures
      var text := Decode([EscapeUnit(a, upper), EscapeUnit(b, upper)]);
      if 0xD800 <= a <= 0xDBFF && 0xDC00 <= b <= 0xDFFF then |text| == 1 && text[0] >= 0x10000 else text == [a, b]
  {
    hide EscapeUnit, Unit, LegalPiece;
    EscapeIsUnit(a, upper);
    EscapeIsUnit(b, upper);
    var ps := [EscapeUnit(a, upper), EscapeUnit(b, upper)];
    var last := [EscapeUnit(b, upper)];
    assert ps[1..] == last && ps[2..] == [] && last[1..] == [];
    assert Decode(last) == [b] + Decode(last[1..]) == [b];
    if !SurrogatePair(ps) { assert Decode(ps) == [a] + Decode(ps[1..]) == [a] + [b]; }
  }

  /** Every scalar may be spelled by any token without quotes and brackets, and every character that is no
      control character, quote or backslash may stand for itself. */
  lemma LegalMeans(token: string, b: bool, c: char)
    requires token != ""
    requires forall x | x in token :: x != '"' && x != '\\' && x != '[' && x != ']' && x != '{' && x != '}'
    ensures Legal(Atom(token, Null)) && Legal(Atom(token, Bool(b))) && Legal(Atom(token, Number(b)))
    ensures LegalPiece(Plain(c)) <==> 0x20 <= c as int && c as int != 0x22 && c as int != 0x5C
    ensures LegalPiece(Escape(c)) <==>
            c == '"' || c == '\\' || c == '/' || c == 'b' || c == 'f' || c == 'n' || c == 'r' || c == 't'
  {
    assert "\"\\/bfnrt" == ['"', '\\', '/', 'b', 'f', 'n', 'r', 't'];
    assert "\"\\[]{}" == ['"', '\\', '[', ']', '{', '}'];
  }

  /** The other legal pieces: a character stands for itself, and the eight short escapes. */
  lemma ShortEscapes(c: char)
    ensures Decode([Plain(c)]) == [c as int]
    ensures Decode([Escape('"')]) == [0x22] && Decode([Escape('\\')]) == [0x5C] && Decode([Escape('/')]) == [0x2F]
    ensures Decode([Escape('b')]) == [8] && Decode([Escape('f')]) == [12] && Decode([Escape('n')]) == [10]
    ensures Decode([Escape('r')]) == [13] && Decode([Escape('t')]) == [9]
  {
  }

  // ---------------------------------------------------------------- the flat scanner

  datatype Scan = Scan(depth: int, inString: bool, escaped: bool, tooDeep: bool)

  const START := Scan(0, false, false, false)

  /** One turn of the scanner's loop; once the text is refused nothing more is read. */
  function Step(s: Scan, c: char): Scan
  {
    if s.tooDeep then s
    else if s.inString then
      if s.escaped then s.(escaped := false)
      else if c == '\\' then s.(escaped := true)
      else if c == '"' then s.(inString := false)
      else s
    else if c == '"' then s.(inString := true)
    else if c in "[{" then s.(depth := s.depth + 1, tooDeep := s.depth + 1 > MAX_DEPTH)
    else if c in "]}" then s.(depth := s.depth - 1)
    else s
  }

  function Read(s: Scan, text: string): Scan
    decreases |text|
  {
    if text == "" then s else Read(Step(s, text[0]), text[1..])
  }

  method CheckDepth(text: string) returns (accepted: bool)
    ensures accepted == !Read(START, text).tooDeep
  {
    var depth, inString, escaped := 0, false, false;
    for i := 0 to |text|
      invariant Read(START, text) == Read(Scan(depth, inString, escaped, false), text[i..])
    {
      var c := text[i];
      ghost var s := Scan(depth, inString, escaped, false);
      assert Read(s, text[i..]) == Read(Step(s, c), text[i + 1..]) by { assert text[i..][1..] == text[i + 1..]; }
      if inString {
        if escaped {
          escaped := false;
        } else if c == '\\' {
          escaped := true;
        } else if c == '"' {
          inString := false;
        }
      } else if c == '"' {
        inString := true;
      } else if c in "[{" {
        depth := depth + 1;
        if depth > MAX_DEPTH {
          ReadRefused(Step(s, c), text[i + 1..]);
          return false;
        }
      } else if c in "]}" {
        depth := depth - 1;
      }
    }
    return true;
  }

  lemma {:induction false} ReadRefused(s: Scan, text: string)
    requires s.tooDeep
    ensures Read(s, text) == s
    decreases |text|
  {
    if text != "" { ReadRefused(s, text[1..]); }
  }

  lemma {:induction false} ReadAppend(s: Scan, a: string, b: string)
    ensures Read(s, a + b) == Read(Read(s, a), b)
    decreases |a|
  {
    if a == "" {
      assert a + b == b;
    } else {
      assert (a + b)[1..] == a[1..] + b;
      ReadAppend(Step(s, a[0]), a[1..], b);
    }
  }

  /** Between tokens: outside strings and not refused. */
  predicate Open(s: Scan) { !s.inString && !s.escaped && !s.tooDeep && s.depth <= MAX_DEPTH }

  lemma {:induction false} ReadQuiet(s: Scan, t: string)
    requires Open(s) && forall c | c in t :: c !in "\"[]{}"
    ensures Read(s, t) == s
    decreases |t|
  {
    if t != "" {
      assert t[0] in t;
      ReadQuiet(s, t[1..]);
    }
  }

  lemma {:induction false} ReadInside(s: Scan, t: string)
    requires s.inString && !s.escaped && !s.tooDeep
    requires forall c | c in t :: c != '"' && c != '\\'
    ensures Read(s, t) == s
    decreases |t|
  {
    if t != "" {
      assert t[0] in t && forall c | c in t[1..] :: c in t;
      ReadInside(s, t[1..]);
    }
  }

  lemma {:induction false} ReadPieces(s: Scan, ps: seq<Piece>)
    requires s.inString && !s.escaped && !s.tooDeep
    requires forall p | p in ps :: LegalPiece(p)
    ensures Read(s, WritePieces(ps)) == s
  {
    if ps != [] {
      var p := ps[0];
      assert LegalPiece(p);
      var head := match p case Plain(c) => [c] case Escape(letter) => ['\\', letter] case Unicode(hex) => "\\u" + hex;
      assert Read(s, head) == s by {
        match p
        case Plain(c) => ReadInside(s, [c]);
        case Escape(letter) =>
          assert Read(s, head) == Read(Step(Step(s, '\\'), letter), head[1..][1..]);
        case Unicode(hex) =>
          assert head[1..][1..] == hex;
          assert Read(s, head) == Read(Step(Step(s, '\\'), 'u'), hex);
          ReadInside(s, hex);
      }
      ReadAppend(s, head, WritePieces(ps[1..]));
      ReadPieces(s, ps[1..]);
    }
  }

  lemma ReadQuoted(s: Scan, ps: seq<Piece>)
    requires Open(s) && forall p | p in ps :: LegalPiece(p)
    ensures Read(s, WriteQuoted(ps)) == s
  {
    var inside := s.(inString := true);
    var body := WritePieces(ps) + "\"";
    assert ("\"" + body)[1..] == body;
    ReadPieces(inside, ps);
    ReadAppend(inside, WritePieces(ps), "\"");
    assert Read(inside, "\"") == s;
  }

  /** What reading a piece of text that nests `n` deep does to an open scanner. */
  predicate Reads(s: Scan, text: string, n: nat)
  {
    if s.depth + n > MAX_DEPTH then Read(s, text).tooDeep else Read(s, text) == s
  }

  /** Text read after text: the deeper of the two decides. */
  lemma ReadsThen(s: Scan, a: string, m: nat, b: string, n: nat)
    requires Open(s) && Reads(s, a, m) && Reads(s, b, n)
    ensures Reads(s, a + b, Max(m, n))
  {
    ReadAppend(s, a, b);
    if Read(s, a).tooDeep { ReadRefused(Read(s, a), b); }
  }

  lemma ReadsQuiet(s: Scan, t: string)
    requires Open(s) && forall c | c in t :: c !in "\"[]{}"
    ensures Reads(s, t, 0)
  {
    ReadQuiet(s, t);
  }

  lemma ReadsQuoted(s: Scan, ps: seq<Piece>)
    requires Open(s) && forall p | p in ps :: LegalPiece(p)
    ensures Reads(s, WriteQuoted(ps), 0)
  {
    ReadQuoted(s, ps);
  }

  lemma NothingRead(s: Scan)
    requires Open(s)
    ensures Reads(s, "", 0)
  {
  }

  lemma ReadsBracketed(s: Scan, open: char, inner: string, close: char, n: nat)
    requires Open(s) && open in "[{" && close in "]}"
    requires s.depth < MAX_DEPTH ==> Reads(s.(depth := s.depth + 1), inner, n)
    ensures Reads(s, [open] + (inner + [close]), 1 + n)
  {
    var deeper := Step(s, open);
    var tail := inner + [close];
    assert ([open] + tail)[1..] == tail;
    if deeper.tooDeep {
      ReadRefused(deeper, tail);
    } else {
      ReadAppend(deeper, inner, [close]);
      if Read(deeper, inner).tooDeep {
        ReadRefused(Read(deeper, inner), [close]);
      } else {
        assert Read(deeper, [close]) == Read(Step(deeper, close), [close][1..]);
      }
    }
  }

  lemma {:induction false} ReadsValue(s: Scan, v: Spelling)
    requires Open(s) && Legal(v)
    ensures Reads(s, Write(v), Nesting(Meaning(v)))
    decreases v, 1
  {
    hide Read, Reads, WriteQuoted, Decode;
    match v
    case Atom(token, scalar) => ReadsQuiet(s, token);
    case Quoted(pieces) => ReadsQuoted(s, pieces);
    case Array(gap, elements) =>
      if s.depth < MAX_DEPTH {
        var deeper := s.(depth := s.depth + 1);
        if elements == [] { ReadsQuiet(deeper, gap); } else { ReadsElements(deeper, elements); }
      }
      ReadsBracketed(s, '[', if elements == [] then gap else WriteElements(elements), ']',
        NestingAll(ElementMeanings(elements)));
    case Object(gap, entries) =>
      if s.depth < MAX_DEPTH {
        var deeper := s.(depth := s.depth + 1);
        if entries == [] { ReadsQuiet(deeper, gap); } else { ReadsEntries(deeper, entries); }
      }
      ReadsBracketed(s, '{', if entries == [] then gap else WriteEntries(entries), '}',
        NestingFields(EntryMeanings(entries)));
  }

  lemma {:induction false} ReadsElements(s: Scan, es: seq<Element>)
    requires Open(s) && LegalElements(es) && es != []
    ensures Reads(s, WriteElements(es), NestingAll(ElementMeanings(es)))
    decreases es, 0
  {
    hide Read, Write, Nesting, Meaning, Legal;
    var e, rest := es[0], es[1..];
    var tail := if |es| == 1 then "" else "," + WriteElements(rest);
    NothingRead(s);
    var n := NestingAll(ElementMeanings(rest));
    assert ElementMeanings(es)[1..] == ElementMeanings(rest);
    assert Reads(s, tail, n) by {
      if |es| > 1 {
        ReadsElements(s, rest);
        ReadsQuiet(s, ",");
        ReadsThen(s, ",", 0, WriteElements(rest), n);
      }
    }
    ReadsValue(s, e.item);
    ReadsElement(s, e, tail, n);
  }

  lemma ReadsElement(s: Scan, e: Element, tail: string, n: nat)
    requires Open(s) && Blank(e.before) && Blank(e.after)
    requires Reads(s, Write(e.item), Nesting(Meaning(e.item))) && Reads(s, tail, n)
    ensures Reads(s, e.before + (Write(e.item) + (e.after + tail)), Max(Nesting(Meaning(e.item)), n))
  {
    hide Read, Write, Meaning, Nesting;
    ReadsQuiet(s, e.after);
    ReadsThen(s, e.after, 0, tail, n);
    ReadsThen(s, Write(e.item), Nesting(Meaning(e.item)), e.after + tail, n);
    ReadsQuiet(s, e.before);
    ReadsThen(s, e.before, 0, Write(e.item) + (e.after + tail), Max(Nesting(Meaning(e.item)), n));
  }

  lemma {:induction false} ReadsEntries(s: Scan, es: seq<Entry>)
    requires Open(s) && LegalEntries(es) && es != []
    ensures Reads(s, WriteEntries(es), NestingFields(EntryMeanings(es)))
    decreases es, 0
  {
    hide Read, Write, Nesting, Meaning, Legal;
    var e, rest := es[0], es[1..];
    var tail := if |es| == 1 then "" else "," + WriteEntries(rest);
    NothingRead(s);
    var n := NestingFields(EntryMeanings(rest));
    assert EntryMeanings(es)[1..] == EntryMeanings(rest);
    ReadsValue(s, e.item);
    assert Reads(s, tail, n) by {
      if |es| > 1 {
        ReadsEntries(s, rest);
        ReadsQuiet(s, ",");
        ReadsThen(s, ",", 0, WriteEntries(rest), n);
      }
    }
    ReadsEntry(s, e, tail, n);
  }

  lemma ReadsEntry(s: Scan, e: Entry, tail: string, n: nat)
    requires Open(s) && Blank(e.before) && Blank(e.colon) && Blank(e.gap) && Blank(e.after)
    requires forall p | p in e.key :: LegalPiece(p)
    requires Reads(s, Write(e.item), Nesting(Meaning(e.item))) && Reads(s, tail, n)
    ensures Reads(s, e.before + (WriteQuoted(e.key) + (e.colon + (":" + (e.gap + (Write(e.item) + (e.after + tail)))))),
                  Max(Nesting(Meaning(e.item)), n))
  {
    hide Read, Reads, Write, WriteQuoted, Meaning, Nesting;
    var m := Nesting(Meaning(e.item));
    var deepest := Max(m, n);
    ReadsQuiet(s, e.after);
    ReadsThen(s, e.after, 0, tail, n);
    ReadsThen(s, Write(e.item), m, e.after + tail, n);
    var text := Write(e.item) + (e.after + tail);
    ReadsQuiet(s, e.gap);
    ReadsThen(s, e.gap, 0, text, deepest);
    ReadsQuiet(s, ":");
    ReadsThen(s, ":", 0, e.gap + text, deepest);
    ReadsQuiet(s, e.colon);
    ReadsThen(s, e.colon, 0, ":" + (e.gap + text), deepest);
    ReadsQuoted(s, e.key);
    ReadsThen(s, WriteQuoted(e.key), 0, e.colon + (":" + (e.gap + text)), deepest);
    ReadsQuiet(s, e.before);
    ReadsThen(s, e.before, 0, WriteQuoted(e.key) + (e.colon + (":" + (e.gap + text))), deepest);
  }

  /** For every JSON tree and every legal spelling of it, with any whitespace around it,
      the scanner refuses exactly the trees nested deeper than the limit. */
  lemma DepthGuardIsNesting(before: string, v: Spelling, after: string)
    requires Blank(before) && Legal(v) && Blank(after)
    ensures !Read(START, before + (Write(v) + after)).tooDeep <==> Nesting(Meaning(v)) <= 16
  {
    hide Read, Write, Meaning, Nesting, Legal;
    var n := Nesting(Meaning(v));
    ReadsQuiet(START, after);
    ReadsValue(START, v);
    ReadsThen(START, Write(v), n, after, 0);
    ReadsQuiet(START, before);
    ReadsThen(START, before, 0, Write(v) + after, n);
  }

  // ---------------------------------------------------------------- the worklist

  predicate ValidString(s: seq<int>)
  {
    |s| <= MAX_STRING && 0 !in s && forall c | c in s :: !(0xD800 <= c <= 0xDFFF)
  }

  /** A string is accepted exactly if it is short enough, holds no NUL, and every element is one that can
      be encoded: a lone surrogate is not. */
  lemma ValidStringMeans(s: seq<int>)
    requires forall c | c in s :: 0 <= c <= 0x10FFFF
    ensures ValidString(s) <==> |s| <= 4096 && forall k | 0 <= k < |s| :: s[k] != 0 && CodePoint(s[k])
  {
    if forall k | 0 <= k < |s| :: s[k] != 0 && CodePoint(s[k]) {
      forall c | c in s ensures c != 0 && !(0xD800 <= c <= 0xDFFF) {
        var k :| 0 <= k < |s| && s[k] == c;
      }
    }
    if 0 !in s && forall c | c in s :: !(0xD800 <= c <= 0xDFFF) {
      forall k | 0 <= k < |s| ensures s[k] != 0 && CodePoint(s[k]) { assert s[k] in s; }
    }
  }

  /** Nodes of a tree, every object key counting as one. */
  function Nodes(j: Json): (n: nat)
    ensures n >= 1
    decreases j, 1
  {
    match j
    case Arr(items) => 1 + NodesAll(items)
    case Obj(members) => 1 + NodesFields(members)
    case _ => 1
  }

  function NodesAll(items: seq<Json>): nat
    decreases items, 0
  {
    if items == [] then 0 else Nodes(items[0]) + NodesAll(items[1..])
  }

  function NodesFields(members: seq<Field>): nat
    decreases members, 0
  {
    if members == [] then 0 else 1 + Nodes(members[0].value) + NodesFields(members[1..])
  }

  predicate Valid(j: Json)
    decreases j, 1
  {
    match j
    case Str(text) => ValidString(text)
    case Number(finite) => finite
    case Arr(items) => ValidAll(items)
    case Obj(members) => ValidFields(members)
    case _ => true
  }

  predicate ValidAll(items: seq<Json>)
    decreases items, 0
  {
    items != [] ==> Valid(items[0]) && ValidAll(items[1..])
  }

  predicate ValidFields(members: seq<Field>)
    decreases members, 0
  {
    members != [] ==> ValidString(members[0].key) && Valid(members[0].value) && ValidFields(members[1..])
  }

  /** Which values are valid: null and booleans always, numbers that stay finite, valid strings, and containers
      of nothing else; the keys of an object count as strings. */
  lemma {:induction false} ValidMeans(j: Json)
    ensures j.Null? || j.Bool? ==> Valid(j)
    ensures j.Number? ==> (Valid(j) <==> j.finite)
    ensures j.Str? ==> (Valid(j) <==> ValidString(j.text))
    ensures j.Arr? ==> (Valid(j) <==> forall i | 0 <= i < |j.items| :: Valid(j.items[i]))
    ensures j.Obj? ==>
      (Valid(j) <==> forall i | 0 <= i < |j.members| :: ValidString(j.members[i].key) && Valid(j.members[i].value))
  {
    match j
    case Arr(items) => AllValidMeans(items);
    case Obj(members) => FieldsValidMeans(members);
    case _ =>
  }

  lemma {:induction false} AllValidMeans(items: seq<Json>)
    ensures ValidAll(items) <==> forall i | 0 <= i < |items| :: Valid(items[i])
  {
    hide Valid;
    if items != [] {
      AllValidMeans(items[1..]);
      assert forall i | 1 <= i < |items| :: items[i] == items[1..][i - 1];
    }
  }

  lemma {:induction false} FieldsValidMeans(members: seq<Field>)
    ensures ValidFields(members) <==>
            forall i | 0 <= i < |members| :: ValidString(members[i].key) && Valid(members[i].value)
  {
    hide Valid, ValidString;
    if members != [] {
      FieldsValidMeans(members[1..]);
      assert forall i | 1 <= i < |members| :: members[i] == members[1..][i - 1];
    }
  }

  lemma {:induction false} WorklistAppend(a: seq<Json>, b: seq<Json>)
    ensures NodesAll(a + b) == NodesAll(a) + NodesAll(b)
    ensures ValidAll(a + b) <==> ValidAll(a) && ValidAll(b)
    decreases |a|
  {
    if a == [] {
      assert a + b == b;
    } else {
      assert (a + b)[1..] == a[1..] + b;
      WorklistAppend(a[1..], b);
    }
  }

  /** The pairs an object puts on the worklist. */
  function Pairs(members: seq<Field>): seq<Json>
  {
    if members == [] then []
    else
      var n := |members| - 1;
      Pairs(members[..n]) + [Str(members[n].key), members[n].value]
  }

  lemma {:induction false} FieldsAppend(a: seq<Field>, b: seq<Field>)
    ensures NodesFields(a + b) == NodesFields(a) + NodesFields(b)
    ensures ValidFields(a + b) <==> ValidFields(a) && ValidFields(b)
    decreases |a|
  {
    if a == [] {
      assert a + b == b;
    } else {
      assert (a + b)[1..] == a[1..] + b;
      FieldsAppend(a[1..], b);
    }
  }

  lemma {:induction false} PairsCount(members: seq<Field>)
    ensures NodesAll(Pairs(members)) == NodesFields(members)
    ensures ValidAll(Pairs(members)) <==> ValidFields(members)
    decreases |members|
  {
    if members != [] {
      var n := |members| - 1;
      var last := members[n];
      assert members == members[..n] + [last];
      FieldsAppend(members[..n], [last]);
      PairsCount(members[..n]);
      var pair := [Str(last.key), last.value];
      WorklistAppend(Pairs(members[..n]), pair);
      WorklistAppend([Str(last.key)], [last.value]);
      assert pair == [Str(last.key)] + [last.value];
      assert [last][1..] == [] && [Str(last.key)][1..] == [] && [last.value][1..] == [];
      assert NodesFields([last]) == 1 + Nodes(last.value) + NodesFields([]);
      assert ValidAll([Str(last.key)]) <==> ValidString(last.key);
    }
  }

  lemma NothingListed()
    ensures NodesAll([]) == 0 && ValidAll([])
  {
  }

  lemma WorklistTop(pending: seq<Json>, item: Json)
    ensures NodesAll(pending + [item]) == NodesAll(pending) + Nodes(item)
    ensures ValidAll(pending + [item]) <==> ValidAll(pending) && Valid(item)
  {
    WorklistAppend(pending, [item]);
    assert [item][1..] == [];
  }

  /** Accepts exactly the trees of at most `MAX_NODES` nodes whose strings and numbers are
      all storable, although it stops at the first fault it meets. */
  method CheckValues(root: Json) returns (accepted: bool)
    ensures accepted <==> Nodes(root) <= 2048 && Valid(root)
  {
    hide NodesAll, ValidAll, NodesFields, ValidFields, ValidString;
    var pending := [root];
    var visited := 0;
    WorklistTop([], root);
    NothingListed();
    assert [] + [root] == [root];
    while pending != []
      invariant visited + NodesAll(pending) == Nodes(root)
      invariant visited <= MAX_NODES
      invariant Valid(root) <==> ValidAll(pending)
      decreases NodesAll(pending)
    {
      var item := pending[|pending| - 1];
      ghost var was := pending;
      pending := pending[..|pending| - 1];
      assert was == pending + [item];
      WorklistTop(pending, item);
      visited := visited + 1;
      if visited > MAX_NODES {
        return false;
      }
      match item
      case Obj(members) =>
        ghost var base := pending;
        for i := 0 to |members|
          invariant pending == base + Pairs(members[..i])
        {
          pending := pending + [Str(members[i].key), members[i].value];
          assert members[..i + 1][..i] == members[..i];
        }
        assert members[..|members|] == members;
        PairsCount(members);
        WorklistAppend(base, Pairs(members));
      case Arr(items) =>
        WorklistAppend(pending, items);
        pending := pending + items;
      case Str(text) =>
        if !ValidString(text) {
          return false;
        }
      case Number(finite) =>
        if !finite {
          return false;
        }
      case _ =>
    }
    return true;
  }

  /** The verdict does not depend on the order in which the worklist is drained. */
  lemma {:induction false} OrderDoesNotMatter(p: seq<Json>, q: seq<Json>)
    requires multiset(p) == multiset(q)
    ensures NodesAll(p) == NodesAll(q)
    ensures ValidAll(p) <==> ValidAll(q)
    decreases |p|
  {
    hide Nodes, Valid;
    if p == [] {
      assert |multiset(q)| == 0;
    } else {
      var k := Place(p, q);
      var rest := q[..k] + q[k + 1..];
      OrderDoesNotMatter(p[1..], rest);
      WorklistAppend(q[..k], q[k + 1..]);
      assert q == q[..k] + ([q[k]] + q[k + 1..]) && ([q[k]] + q[k + 1..])[1..] == q[k + 1..];
      WorklistAppend(q[..k], [q[k]] + q[k + 1..]);
    }
  }

  /** Where the first entry of one order stands in the other. */
  lemma Place(p: seq<Json>, q: seq<Json>) returns (k: nat)
    requires p != [] && multiset(p) == multiset(q)
    ensures k < |q| && q[k] == p[0] && multiset(p[1..]) == multiset(q[..k] + q[k + 1..])
  {
    assert p[0] in multiset(q);
    k :| 0 <= k < |q| && q[k] == p[0];
    assert p == [p[0]] + p[1..];
    assert q == q[..k] + ([q[k]] + q[k + 1..]);
    assert multiset(q[..k] + q[k + 1..]) == multiset(q) - multiset{p[0]};
  }

  /** A repeated key refuses the object; otherwise every pair is kept. */
  method UniqueObject(pairs: seq<Field>) returns (accepted: bool, result: map<seq<int>, Json>)
    ensures accepted <==> forall i, j | 0 <= i < j < |pairs| :: pairs[i].key != pairs[j].key
    ensures accepted ==> forall i | 0 <= i < |pairs| :: pairs[i].key in result && result[pairs[i].key] == pairs[i].value
    ensures accepted ==> forall k | k in result :: exists i :: 0 <= i < |pairs| && pairs[i].key == k
  {
    result := map[];
    for n := 0 to |pairs|
      invariant forall i, j | 0 <= i < j < n :: pairs[i].key != pairs[j].key
      invariant forall i | 0 <= i < n :: pairs[i].key in result && result[pairs[i].key] == pairs[i].value
      invariant forall k | k in result :: exists i :: 0 <= i < n && pairs[i].key == k
    {
      if pairs[n].key in result {
        return false, result;
      }
      result := result[pairs[n].key := pairs[n].value];
    }
    return true, result;
  }
}
