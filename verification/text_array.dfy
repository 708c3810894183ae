/** The Postgres text-array printer and parser, and that the second undoes the first. */
module TextArray {
  import opened Types

  // ---------------------------------------------------------------- strings

  /** `unicode.IsSpace`. */
  predicate IsSpace(c: char) {
    || c == '\t' || c == '\n' || c == '\U{B}' || c == '\U{C}' || c == '\r' || c == ' '
    || c == '\U{85}' || c == '\U{A0}' || c == '\U{1680}' || '\U{2000}' <= c <= '\U{200A}'
    || c == '\U{2028}' || c == '\U{2029}' || c == '\U{202F}' || c == '\U{205F}' || c == '\U{3000}'
  }

  /** Of the ASCII characters, the blank and the controls from tab to carriage return. */
  lemma AsciiSpaces(c: char)
    requires c < 128 as char
    ensures IsSpace(c) <==> c == ' ' || 9 <= c as int <= 13
  {}

  predicate IsBrace(c: char) {
    c == '{' || c == '}'
  }

  function TrimLeft(s: string, cut: char -> bool): string {
    if s != "" && cut(s[0]) then TrimLeft(s[1..], cut) else s
  }

  function TrimRight(s: string, cut: char -> bool): string {
    if s != "" && cut(Last(s)) then TrimRight(Front(s), cut) else s
  }

  function Trim(s: string, cut: char -> bool): string {
    TrimRight(TrimLeft(s, cut), cut)
  }

  function ReplaceAll(s: string, c: char, by_: string): string {
    if s == "" then "" else (if s[0] == c then by_ else [s[0]]) + ReplaceAll(s[1..], c, by_)
  }

  function Join(parts: seq<string>): string {
    if parts == [] then ""
    else if |parts| == 1 then parts[0]
    else Join(Front(parts)) + "," + Last(parts)
  }

  // ---------------------------------------------------------------- printing

  function Quote(item: string): string {
    "\"" + ReplaceAll(ReplaceAll(item, '\\', "\\\\"), '"', "\\\"") + "\""
  }

  function Quotes(items: seq<string>): (q: seq<string>)
    ensures |q| == |items| && forall k :: 0 <= k < |items| ==> q[k] == Quote(items[k])
  {
    seq(|items|, k requires 0 <= k < |items| => Quote(items[k]))
  }

  method Encode(items: seq<string>) returns (r: string)
    ensures r == "{" + Join(Quotes(items)) + "}"
  {
    if |items| == 0 {
      return "{}";
    }
    var escaped: seq<string> := [];
    for i := 0 to |items|
      invariant |escaped| == i && forall k :: 0 <= k < i ==> escaped[k] == Quote(items[k])
    {
      var item := ReplaceAll(items[i], '\\', "\\\\");
      escaped := escaped + ["\"" + ReplaceAll(item, '"', "\\\"") + "\""];
    }
    assert escaped == Quotes(items);
    r := "{" + Join(escaped) + "}";
  }

  // ---------------------------------------------------------------- parsing

  /** What the parsing loop carries from one character to the next. */
  datatype Scanner = Scanner(result: seq<string>, item: string, quoted: bool, wasQuoted: bool, escaped: bool)
  {
    function AppendItem(): Scanner {
      this.(result := result + [if wasQuoted then item else Trim(item, IsSpace)], item := "", wasQuoted := false)
    }

    function Step(c: char): Scanner {
      if escaped then this.(item := item + [c], escaped := false)
      else if c == '\\' && quoted then this.(escaped := true)
      else if c == '"' then this.(quoted := !quoted, wasQuoted := true)
      else if c == ',' && !quoted then AppendItem()
      else this.(item := item + [c])
    }

    function Scan(s: string): Scanner
      decreases |s|
    {
      if s == "" then this else Step(s[0]).Scan(s[1..])
    }
  }

  /** A scanner between two items. */
  function Between(result: seq<string>): Scanner {
    Scanner(result, "", false, false, false)
  }

  /** `json` is what the JSON decoder makes of the text as a list of strings, if anything. */
  function Decoded(s: string, json: Option<seq<string>>): seq<string> {
    var head := Trim(s, IsSpace);
    if head != "" && head[0] == '[' && json.Some? then json.value
    else
      var inner := Trim(s, IsBrace);
      if inner == "" then [] else Between([]).Scan(inner).AppendItem().result
  }

  lemma {:induction false} ScanOneMore(sc: Scanner, s: string, i: nat)
    requires i < |s|
    ensures sc.Scan(s[..i + 1]) == sc.Scan(s[..i]).Step(s[i])
    decreases i
  {
    ScanConcat(sc, s[..i], [s[i]]);
    assert s[..i + 1] == s[..i] + [s[i]];
    var mid := sc.Scan(s[..i]);
    assert mid.Scan([s[i]]) == mid.Step(s[i]).Scan([s[i]][1..]);
  }

  lemma {:induction false} ScanConcat(sc: Scanner, a: string, b: string)
    ensures sc.Scan(a + b) == sc.Scan(a).Scan(b)
    decreases |a|
  {
    if a == "" {
      assert a + b == b;
    } else {
      assert (a + b)[1..] == a[1..] + b;
      ScanConcat(sc.Step(a[0]), a[1..], b);
    }
  }

  /** The parser: one pass with three flags and a builder. */
  method Decode(s: string, json: Option<seq<string>>) returns (result: seq<string>)
    ensures result == Decoded(s, json)
  {
    var head := Trim(s, IsSpace);
    if head != "" && head[0] == '[' && json.Some? {
      return json.value;
    }
    var inner := Trim(s, IsBrace);
    if inner == "" {
      return [];
    }
    result := [];
    var item, quoted, wasQuoted, escaped := "", false, false, false;
    for i := 0 to |inner|
      invariant Between([]).Scan(inner[..i]) == Scanner(result, item, quoted, wasQuoted, escaped)
    {
      ScanOneMore(Between([]), inner, i);
      var r := inner[i];
      if escaped {
        item := item + [r];
        escaped := false;
      } else if r == '\\' && quoted {
        escaped := true;
      } else if r == '"' {
        quoted := !quoted;
        wasQuoted := true;
      } else if r == ',' && !quoted {
        result := result + [if wasQuoted then item else Trim(item, IsSpace)];
        item, wasQuoted := "", false;
      } else {
        item := item + [r];
      }
    }
    assert inner[..|inner|] == inner;
    result := result + [if wasQuoted then item else Trim(item, IsSpace)];
  }

  // ---------------------------------------------------------------- round trip

  function EscapedChar(c: char): string {
    if c == '\\' then "\\\\" else if c == '"' then "\\\"" else [c]
  }

  lemma {:induction false} ReplaceConcat(a: string, b: string, c: char, by_: string)
    ensures ReplaceAll(a + b, c, by_) == ReplaceAll(a, c, by_) + ReplaceAll(b, c, by_)
  {
    if a == "" {
      assert a + b == b;
    } else {
      assert (a + b)[1..] == a[1..] + b;
      ReplaceConcat(a[1..], b, c, by_);
    }
  }

  function Escape(item: string): string {
    ReplaceAll(ReplaceAll(item, '\\', "\\\\"), '"', "\\\"")
  }

  /** Escaping backslashes and then quotes is escaping each character by itself. */
  lemma EscapeOneMore(item: string)
    requires item != ""
    ensures Escape(item) == EscapedChar(item[0]) + Escape(item[1..])
  {
    var c := item[0];
    var first := if c == '\\' then "\\\\" else [c];
    ReplaceConcat(first, ReplaceAll(item[1..], '\\', "\\\\"), '"', "\\\"");
    EscapeFirst(c);
  }

  lemma EscapeFirst(c: char)
    ensures ReplaceAll(if c == '\\' then "\\\\" else [c], '"', "\\\"") == EscapedChar(c)
  {
    if c == '\\' {
      assert "\\\\" == ['\\'] + ['\\'];
      ReplaceConcat(['\\'], ['\\'], '"', "\\\"");
    }
  }

  /** Inside quotes the scanner reads an escaped text back. */
  lemma {:induction false} ScanEscaped(sc: Scanner, item: string)
    requires sc.quoted && !sc.escaped
    ensures sc.Scan(Escape(item)) == sc.(item := sc.item + item)
    decreases |item|
  {
    if item != "" {
      EscapeOneMore(item);
      ScanConcat(sc, EscapedChar(item[0]), Escape(item[1..]));
      var next := sc.(item := sc.item + [item[0]]);
      ScanOneEscaped(sc, item[0]);
      ScanEscaped(next, item[1..]);
      assert sc.item + [item[0]] + item[1..] == sc.item + item;
    }
  }

  lemma ScanOneEscaped(sc: Scanner, c: char)
    requires sc.quoted && !sc.escaped
    ensures sc.Scan(EscapedChar(c)) == sc.(item := sc.item + [c])
  {
    var e := EscapedChar(c);
    if |e| == 2 {
      assert e[1..][1..] == "";
      assert sc.Step(e[0]).Scan(e[1..]) == sc.Step(e[0]).Step(e[1]).Scan(e[1..][1..]);
    } else {
      assert e[1..] == "";
    }
  }

  lemma ScanQuoted(result: seq<string>, item: string)
    ensures Between(result).Scan(Quote(item)) == Between(result).(item := item, wasQuoted := true)
  {
    var sc := Between(result);
    var open := sc.(quoted := true, wasQuoted := true);
    assert Quote(item) == "\"" + (Escape(item) + "\"");
    ScanConcat(sc, "\"", Escape(item) + "\"");
    assert sc.Scan("\"") == sc.Step('"').Scan("\""[1..]) == open;
    ScanConcat(open, Escape(item), "\"");
    ScanEscaped(open, item);
    var shut := open.(item := item);
    assert shut.Scan("\"") == shut.Step('"').Scan("\""[1..]);
  }

  /** An item may be printed bare if nothing in it is syntax and trimming leaves it alone. */
  ghost predicate BareSafe(text: string) {
    && text != ""
    && (forall k :: 0 <= k < |text| ==> text[k] != '"' && text[k] != ',' && !IsBrace(text[k]))
    && !IsSpace(text[0]) && !IsSpace(Last(text))
  }

  lemma {:induction false} ScanBare(sc: Scanner, text: string)
    requires !sc.quoted && !sc.escaped
    requires forall k :: 0 <= k < |text| ==> text[k] != '"' && text[k] != ','
    ensures sc.Scan(text) == sc.(item := sc.item + text)
    decreases |text|
  {
    if text != "" {
      ScanBare(sc.Step(text[0]), text[1..]);
      assert sc.item + [text[0]] + text[1..] == sc.item + text;
    }
  }

  /** A printed item: quoted, or bare with space around it. */
  datatype Item = Quoted(text: string) | Bare(text: string, left: string, right: string)

  function Printed(item: Item): string {
    match item
    case Quoted(text) => Quote(text)
    case Bare(text, left, right) => left + text + right
  }

  ghost predicate Blank(s: string) {
    forall k :: 0 <= k < |s| ==> IsSpace(s[k])
  }

  ghost predicate Safe(item: Item) {
    item.Bare? ==> BareSafe(item.text) && Blank(item.left) && Blank(item.right)
  }

  lemma {:induction false} TrimLeftBlank(left: string, s: string)
    requires Blank(left) && s != "" && !IsSpace(s[0])
    ensures TrimLeft(left + s, IsSpace) == s
    decreases |left|
  {
    if left == "" {
      assert left + s == s;
    } else {
      assert (left + s)[1..] == left[1..] + s;
      TrimLeftBlank(left[1..], s);
    }
  }

  lemma {:induction false} TrimRightBlank(s: string, right: string)
    requires Blank(right) && s != "" && !IsSpace(Last(s))
    ensures TrimRight(s + right, IsSpace) == s
    decreases |right|
  {
    if right == "" {
      assert s + right == s;
    } else {
      assert Front(s + right) == s + Front(right);
      TrimRightBlank(s, Front(right));
    }
  }

  /** Trimming a bare item takes the space around it and nothing of the text. */
  lemma TrimBare(left: string, text: string, right: string)
    requires BareSafe(text) && Blank(left) && Blank(right)
    ensures Trim(left + text + right, IsSpace) == text
  {
    assert left + text + right == left + (text + right);
    TrimLeftBlank(left, text + right);
    TrimRightBlank(text, right);
  }

  function Map(items: seq<Item>, f: Item -> string): (r: seq<string>)
    ensures |r| == |items| && forall k :: 0 <= k < |items| ==> r[k] == f(items[k])
  {
    seq(|items|, k requires 0 <= k < |items| => f(items[k]))
  }

  function Texts(items: seq<Item>): (r: seq<string>)
    ensures |r| == |items| && forall k :: 0 <= k < |items| ==> r[k] == items[k].text
  {
    Map(items, (item: Item) => item.text)
  }

  /** An array literal in which each item is quoted or bare. */
  function Render(items: seq<Item>): string {
    "{" + Join(Map(items, Printed)) + "}"
  }

  lemma ScanItem(result: seq<string>, item: Item)
    requires Safe(item)
    ensures Between(result).Scan(Printed(item)).AppendItem() == Between(result + [item.text])
    ensures !Between(result).Scan(Printed(item)).quoted && !Between(result).Scan(Printed(item)).escaped
  {
    match item
    case Quoted(text) => ScanQuoted(result, text);
    case Bare(text, left, right) =>
      var s := left + text + right;
      ScanBare(Between(result), s);
      TrimBare(left, text, right);
      assert "" + s == s;
  }

  lemma ScanComma(sc: Scanner, rest: string)
    requires !sc.quoted && !sc.escaped
    ensures sc.Scan("," + rest) == sc.AppendItem().Scan(rest)
  {
    assert ("," + rest)[1..] == rest;
  }

  lemma {:induction false} ScanItems(items: seq<Item>)
    requires items != [] && forall k :: 0 <= k < |items| ==> Safe(items[k])
    ensures
      var sc := Between([]).Scan(Join(Map(items, Printed)));
      sc.AppendItem() == Between(Texts(items)) && !sc.quoted && !sc.escaped
    decreases |items|
  {
    hide Quote, Trim, Safe, Scanner.Scan, Scanner.Step, Printed;
    var parts, last := Map(items, Printed), Last(items);
    if |items| == 1 {
      ScanItem([], last);
      assert [] + [last.text] == Texts(items);
    } else {
      var front := Front(items);
      ScanItems(front);
      assert Front(parts) == Map(front, Printed);
      var text := Join(Front(parts));
      assert Join(parts) == text + ("," + Printed(last));
      ScanConcat(Between([]), text, "," + Printed(last));
      ScanComma(Between([]).Scan(text), Printed(last));
      ScanItem(Texts(front), last);
      assert Texts(front) + [last.text] == Texts(items);
    }
  }

  /** A printed list neither begins nor ends with a brace, so trimming takes the outer ones only. */
  lemma {:induction false} JoinEnds(items: seq<Item>)
    requires items != [] && forall k :: 0 <= k < |items| ==> Safe(items[k])
    ensures var s := Join(Map(items, Printed)); s != "" && !IsBrace(s[0]) && !IsBrace(Last(s))
    decreases |items|
  {
    var parts, last := Map(items, Printed), Last(items);
    PrintedEnds(last);
    if |items| > 1 {
      JoinEnds(Front(items));
      assert Front(parts) == Map(Front(items), Printed);
    }
  }

  lemma PrintedEnds(item: Item)
    requires Safe(item)
    ensures Printed(item) != "" && !IsBrace(Printed(item)[0]) && !IsBrace(Last(Printed(item)))
  {}

  lemma TrimBraces(s: string)
    requires s != "" && !IsBrace(s[0]) && !IsBrace(Last(s))
    ensures Trim("{" + s + "}", IsBrace) == s
  {
    var t := "{" + s + "}";
    assert t[1..] == s + "}";
    assert TrimLeft(t, IsBrace) == TrimLeft(s + "}", IsBrace) == s + "}";
    assert Front(s + "}") == s;
    assert TrimRight(s + "}", IsBrace) == TrimRight(s, IsBrace) == s;
  }

  lemma LiteralIsNotJson(s: string)
    ensures var head := Trim("{" + s + "}", IsSpace); head != "" && head[0] == '{'
  {
    var t := "{" + s + "}";
    assert TrimLeft(t, IsSpace) == t;
    assert TrimRight(t, IsSpace) == t;
  }

  /**
   Parsing inverts printing for every rendering of a list, whichever items are quoted, and whatever the JSON decoder
   would say of the text.
   */
  lemma DecodeInvertsRender(items: seq<Item>, json: Option<seq<string>>)
    requires forall k :: 0 <= k < |items| ==> Safe(items[k])
    ensures Decoded(Render(items), json) == Texts(items)
  {
    var s := Join(Map(items, Printed));
    LiteralIsNotJson(s);
    if items == [] {
      assert Render(items) == "{}";
      assert "{}"[1..] == "}" && "}"[1..] == "";
    } else {
      JoinEnds(items);
      TrimBraces(s);
      ScanItems(items);
    }
  }

  /**
   What the JSON-storing databases return: a text that begins with a bracket, after space, is the list it parses as.
   */
  lemma JsonIsTaken(left: string, rest: string, items: seq<string>)
    requires Blank(left)
    ensures Decoded(left + "[" + rest, Some(items)) == items
  {
    var s := "[" + rest;
    assert left + "[" + rest == left + s;
    TrimLeftBlank(left, s);
    TrimRightKeepsHead(s, IsSpace);
  }

  lemma {:induction false} TrimRightKeepsHead(s: string, cut: char -> bool)
    requires s != "" && !cut(s[0])
    ensures TrimRight(s, cut) != "" && TrimRight(s, cut)[0] == s[0]
    decreases |s|
  {
    if cut(Last(s)) { TrimRightKeepsHead(Front(s), cut); }
  }

  function AllQuoted(items: seq<string>): (r: seq<Item>)
    ensures |r| == |items| && forall k :: 0 <= k < |items| ==> r[k] == Quoted(items[k])
  {
    seq(|items|, k requires 0 <= k < |items| => Quoted(items[k]))
  }

  /** Every list of strings survives being printed and parsed. */
  method RoundTrip(items: seq<string>, json: Option<seq<string>>) returns (back: seq<string>)
    ensures back == items
  {
    var text := Encode(items);
    ghost var all := AllQuoted(items);
    assert Map(all, Printed) == Quotes(items);
    DecodeInvertsRender(all, json);
    assert Texts(all) == items;
    back := Decode(text, json);
  }
}
