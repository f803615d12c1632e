/**
  Canonical JSON rendering: object keys sorted recursively, no insignificant
  whitespace, minimal string escaping.  Everything the ledger hashes goes
  through this printer, so the digests mean something only if the printer is
  unambiguous: `Read` below inverts it, whatever text follows.

  Output is the text before UTF-8 encoding; `Utf8` is in module Digests.
 */
module CanonicalJson {
  predicate IsNumberChar(c: char) {
    '0' <= c <= '9' || c == '-' || c == '+' || c == '.' || c == 'e' || c == 'E'
  }

  predicate IsNumberText(s: string) {
    |s| > 0 && forall i :: 0 <= i < |s| ==> IsNumberChar(s[i])
  }

  /** The text serde_json prints for a number; a number is identified with it. */
  type NumberText = s: string | IsNumberText(s) witness "0"

  datatype Json =
    | Null
    | Bool(b: bool)
    | Number(text: NumberText)
    | String(s: string)
    | Array(items: seq<Json>)
    | Object(fields: map<string, Json>)

  // ----- Strings ---------------------------------------------------------

  function HexDigit(n: int): char
    requires 0 <= n < 16
  {
    "0123456789abcdef"[n]
  }

  /** serde_json's escape table, one character at a time. */
  function EscapeChar(c: char): string {
    var n := c as int;
    if c == '\"' then "\\\""
    else if c == '\\' then "\\\\"
    else if n == 8 then "\\b"
    else if n == 9 then "\\t"
    else if n == 10 then "\\n"
    else if n == 12 then "\\f"
    else if n == 13 then "\\r"
    else if n < 32 then "\\u00" + [HexDigit(n / 16), HexDigit(n % 16)]
    else [c]
  }

  function Escape(s: string): string {
    if s == "" then "" else EscapeChar(s[0]) + Escape(s[1..])
  }

  /**
    Escapes are as short as JSON allows: none but for a quote, a backslash and control
    characters; two characters where JSON has such an escape, and six otherwise.
   */
  lemma EscapeIsShortest(c: char)
    ensures var n, e := c as int, EscapeChar(c);
            |e| == (if n in {8, 9, 10, 12, 13, 34, 92} then 2 else if n < 32 then 6 else 1) &&
            (|e| == 1 ==> e == [c]) && (|e| > 1 ==> e[0] as int == 92) && forall i :: 0 <= i < |e| ==> e[i] as int >= 32
  {
  }

  function PrintString(s: string): string {
    "\"" + Escape(s) + "\""
  }

  // ----- Key order -------------------------------------------------------

  predicate LexLe(a: string, b: string) {
    a == "" || (b != "" && (a[0] < b[0] || (a[0] == b[0] && LexLe(a[1..], b[1..]))))
  }

  lemma LexTotal(a: string, b: string)
    ensures LexLe(a, b) || LexLe(b, a)
  {
  }

  lemma LexAntisymmetric(a: string, b: string)
    requires LexLe(a, b) && LexLe(b, a)
    ensures a == b
  {
    if a != "" && b != "" {
      LexAntisymmetric(a[1..], b[1..]);
      assert a == [a[0]] + a[1..] && b == [b[0]] + b[1..];
    }
  }

  lemma LexTransitive(a: string, b: string, c: string)
    requires LexLe(a, b) && LexLe(b, c)
    ensures LexLe(a, c)
  {
  }

  predicate IsLeast(k: string, keys: set<string>) {
    k in keys && forall x :: x in keys ==> LexLe(k, x)
  }

  lemma LeastExists(keys: set<string>) returns (k: string)
    requires keys != {}
    ensures IsLeast(k, keys)
  {
    var x :| x in keys;
    var rest := keys - {x};
    if rest == {} {
      k := x;
      assert keys == {x};
      LexTotal(x, x);
    } else {
      var m := LeastExists(rest);
      LexTotal(x, m);
      if LexLe(x, m) {
        k := x;
        forall y | y in keys ensures LexLe(x, y) {
          if y == x { LexTotal(x, x); } else { LexTransitive(x, m, y); }
        }
      } else {
        k := m;
        forall y | y in keys ensures LexLe(m, y) {
          if y != x { assert y in rest; }
        }
      }
    }
  }

  /** The least key, found by comparing every pair of keys. */
  function Least(keys: set<string>): (k: string)
    requires keys != {}
    ensures IsLeast(k, keys)
  {
    LeastWitness(keys);
    var k :| k in keys && IsLeast(k, keys);
    k
  }

  lemma LeastWitness(keys: set<string>)
    requires keys != {}
    ensures exists k :: IsLeast(k, keys)
    ensures forall a, b :: IsLeast(a, keys) && IsLeast(b, keys) ==> a == b
  {
    var k := LeastExists(keys);
    forall a, b | IsLeast(a, keys) && IsLeast(b, keys) ensures a == b {
      LexAntisymmetric(a, b);
    }
  }

  function SortedKeys(keys: set<string>): (r: seq<string>)
    ensures forall k :: k in r <==> k in keys
    ensures |r| == |keys|
  {
    if keys == {} then [] else
      var k := Least(keys);
      [k] + SortedKeys(keys - {k})
  }

  /** Object keys come out in strictly increasing order. */
  lemma {:induction false} SortedKeysIncrease(keys: set<string>, i: nat, j: nat)
    requires i < j < |SortedKeys(keys)|
    ensures LexLe(SortedKeys(keys)[i], SortedKeys(keys)[j]) && SortedKeys(keys)[i] != SortedKeys(keys)[j]
    decreases |keys|
  {
    var least := Least(keys);
    var rest := SortedKeys(keys - {least});
    assert SortedKeys(keys) == [least] + rest;
    if i == 0 {
      assert rest[j - 1] in keys - {least};
    } else {
      SortedKeysIncrease(keys - {least}, i - 1, j - 1);
    }
  }

  // ----- The printer -----------------------------------------------------

  /** The given texts separated by commas. */
  function Join(parts: seq<string>): string {
    if parts == [] then ""
    else if |parts| == 1 then parts[0]
    else parts[0] + ("," + Join(parts[1..]))
  }

  function Print(v: Json): string
    decreases v, 1
  {
    match v
    case Null => "null"
    case Bool(b) => if b then "true" else "false"
    case Number(text) => text
    case String(s) => PrintString(s)
    case Array(items) => "[" + Join(ItemTexts(v)) + "]"
    case Object(fields) => "{" + Join(FieldTexts(v)) + "}"
  }

  function ItemTexts(v: Json): (parts: seq<string>)
    requires v.Array?
    ensures |parts| == |v.items|
    decreases v, 0
  {
    seq(|v.items|, i requires 0 <= i < |v.items| => Print(v.items[i]))
  }

  function FieldText(key: string, text: string): string {
    PrintString(key) + (":" + text)
  }

  function FieldTexts(v: Json): (parts: seq<string>)
    requires v.Object?
    ensures |parts| == |SortedKeys(v.fields.Keys)|
    decreases v, 0
  {
    var keys := SortedKeys(v.fields.Keys);
    assert forall i :: 0 <= i < |keys| ==> keys[i] in keys;
    seq(|keys|, i requires 0 <= i < |keys| => FieldText(keys[i], Print(v.fields[keys[i]])))
  }

  /**
    The printer as the program runs it: a recursive procedure that appends to a
    shared output buffer, with a loop over array items and a loop over the
    sorted keys.
   */
  method CanonicalJsonInto(value: Json, out: string) returns (out': string)
    ensures out' == out + Print(value)
    decreases value, 1
  {
    match value
    case Null => out' := out + "null";
    case Bool(b) => out' := out + (if b then "true" else "false");
    case Number(text) => out' := out + text;
    case String(s) => out' := out + PrintString(s);
    case Array(items) =>
      out' := AppendItems(value, out + "[");
      out' := out' + "]";
    case Object(fields) =>
      out' := AppendFields(value, out + "{");
      out' := out' + "}";
  }

  method AppendItems(value: Json, out: string) returns (out': string)
    requires value.Array?
    ensures out' == out + Join(ItemTexts(value))
    decreases value, 0
  {
    ghost var parts := ItemTexts(value);
    out' := out;
    for index := 0 to |value.items|
      invariant out' == out + JoinUpTo(parts, index)
    {
      if index > 0 {
        out' := out' + ",";
      }
      out' := CanonicalJsonInto(value.items[index], out');
      JoinUpToStep(out, parts, index, out');
    }
    JoinUpToAll(parts);
  }

  method AppendFields(value: Json, out: string) returns (out': string)
    requires value.Object?
    ensures out' == out + Join(FieldTexts(value))
    decreases value, 0, 1
  {
    ghost var parts := FieldTexts(value);
    var keys := SortedKeys(value.fields.Keys);
    out' := out;
    for index := 0 to |keys|
      invariant out' == out + JoinUpTo(parts, index)
    {
      if index > 0 {
        out' := out' + ",";
      }
      FieldTextAt(value, index);
      out' := AppendField(keys[index], value.fields[keys[index]], value, out');
      JoinUpToStep(out, parts, index, out');
    }
    JoinUpToAll(parts);
  }

  method AppendField(key: string, item: Json, ghost value: Json, out: string) returns (out': string)
    requires item < value
    ensures out' == out + FieldText(key, Print(item))
    decreases value, 0, 0
  {
    out' := out + PrintString(key) + ":";
    out' := CanonicalJsonInto(item, out');
  }

  lemma FieldTextAt(v: Json, i: nat)
    requires v.Object? && i < |SortedKeys(v.fields.Keys)|
    ensures var key := SortedKeys(v.fields.Keys)[i];
            key in v.fields && FieldTexts(v)[i] == FieldText(key, Print(v.fields[key]))
  {
    assert SortedKeys(v.fields.Keys)[i] in SortedKeys(v.fields.Keys);
  }

  /** The first `n` texts as the loop has joined them. */
  function JoinUpTo(parts: seq<string>, n: nat): string
    requires n <= |parts|
  {
    if n == 0 then ""
    else JoinUpTo(parts, n - 1) + ((if n == 1 then "" else ",") + parts[n - 1])
  }

  lemma JoinUpToStep(start: string, parts: seq<string>, index: nat, now: string)
    requires index < |parts|
    requires now == (if index > 0 then start + JoinUpTo(parts, index) + "," else start + JoinUpTo(parts, index)) + parts[index]
    ensures now == start + JoinUpTo(parts, index + 1)
  {
  }

  lemma {:induction false} JoinUpToSplit(parts: seq<string>, n: nat)
    requires 1 <= n <= |parts|
    ensures JoinUpTo(parts, n)
         == parts[0] + (if n == 1 then "" else "," + JoinUpTo(parts[1..], n - 1))
  {
    if n > 1 {
      JoinUpToSplit(parts, n - 1);
      assert parts[1..][n - 2] == parts[n - 1];
    }
  }

  lemma {:induction false} JoinUpToAll(parts: seq<string>)
    ensures JoinUpTo(parts, |parts|) == Join(parts)
  {
    if parts != [] {
      JoinUpToSplit(parts, |parts|);
      if |parts| > 1 {
        hide JoinUpTo;
        JoinUpToAll(parts[1..]);
      }
    }
  }

  // ----- The reader ------------------------------------------------------

  /** `text` stands in `s` at position `i`. */
  predicate At(s: string, i: nat, text: string) {
    i + |text| <= |s| && s[i..i + |text|] == text
  }

  lemma AtConcat(s: string, i: nat, a: string, b: string)
    ensures At(s, i, a + b) <==> At(s, i, a) && At(s, i + |a|, b)
  {
    var j := i + |a|;
    if j + |b| <= |s| {
      var t := s[i..j + |b|];
      assert t == s[i..j] + s[j..j + |b|];
      assert t[..|a|] == s[i..j] && t[|a|..] == s[j..j + |b|];
      assert (a + b)[..|a|] == a && (a + b)[|a|..] == b;
    }
  }

  lemma AtHead(s: string, i: nat, text: string)
    requires At(s, i, text) && text != ""
    ensures i < |s| && s[i] == text[0]
  {
    assert s[i..i + |text|][0] == s[i];
  }

  /** A value and the position after it. */
  datatype Parsed<T> = Failed | Got(value: T, next: nat)

  function HexValue(c: char): int {
    if '0' <= c <= '9' then c as int - '0' as int
    else if 'a' <= c <= 'f' then c as int - 'a' as int + 10
    else -1
  }

  /** One character of a string body, unescaped. */
  function ReadChar(s: string, i: nat): (r: Parsed<char>)
    ensures r.Got? ==> i < r.next <= |s|
  {
    if i >= |s| || s[i] == '\"' then Failed
    else if s[i] != '\\' then Got(s[i], i + 1)
    else if i + 1 >= |s| then Failed
    else if s[i + 1] == 'b' then Got(8 as char, i + 2)
    else if s[i + 1] == 't' then Got(9 as char, i + 2)
    else if s[i + 1] == 'n' then Got(10 as char, i + 2)
    else if s[i + 1] == 'f' then Got(12 as char, i + 2)
    else if s[i + 1] == 'r' then Got(13 as char, i + 2)
    else if s[i + 1] == 'u' then
      if i + 6 <= |s| && s[i + 2] == '0' && s[i + 3] == '0' && 0 <= HexValue(s[i + 4]) && 0 <= HexValue(s[i + 5])
      then Got((16 * HexValue(s[i + 4]) + HexValue(s[i + 5])) as char, i + 6)
      else Failed
    else Got(s[i + 1], i + 2)
  }

  /** A string body up to and including its closing quote. */
  function ReadBody(s: string, i: nat): (r: Parsed<string>)
    ensures r.Got? ==> i < r.next <= |s|
    decreases |s| - i
  {
    if i < |s| && s[i] == '\"' then Got("", i + 1)
    else match ReadChar(s, i)
      case Failed => Failed
      case Got(c, j) =>
        match ReadBody(s, j)
        case Failed => Failed
        case Got(cs, k) => Got([c] + cs, k)
  }

  function ReadString(s: string, i: nat): (r: Parsed<string>)
    ensures r.Got? ==> i < r.next <= |s|
  {
    if i < |s| && s[i] == '\"' then ReadBody(s, i + 1) else Failed
  }

  /** The end of the longest run of number characters from `i` on. */
  function NumberEnd(s: string, i: nat): (n: nat)
    requires i <= |s|
    ensures i <= n <= |s| && forall k :: i <= k < n ==> IsNumberChar(s[k])
    decreases |s| - i
  {
    if i < |s| && IsNumberChar(s[i]) then NumberEnd(s, i + 1) else i
  }

  function ReadWord(s: string, i: nat, word: string, v: Json): (r: Parsed<Json>)
    ensures r.Got? && word != "" ==> i < r.next <= |s|
  {
    if At(s, i, word) then Got(v, i + |word|) else Failed
  }

  function Read(s: string, i: nat): (r: Parsed<Json>)
    ensures r.Got? ==> i < r.next <= |s|
    decreases |s| - i, 0
  {
    if i >= |s| then Failed
    else if s[i] == 'n' then ReadWord(s, i, "null", Null)
    else if s[i] == 't' then ReadWord(s, i, "true", Bool(true))
    else if s[i] == 'f' then ReadWord(s, i, "false", Bool(false))
    else if s[i] == '\"' then
      match ReadString(s, i)
      case Failed => Failed
      case Got(t, next) => Got(String(t), next)
    else if s[i] == '[' then
      if i + 1 < |s| && s[i + 1] == ']' then Got(Array([]), i + 2)
      else match ReadItems(s, i + 1)
        case Failed => Failed
        case Got(items, next) => Got(Array(items), next)
    else if s[i] == '{' then
      if i + 1 < |s| && s[i + 1] == '}' then Got(Object(map[]), i + 2)
      else match ReadFields(s, i + 1)
        case Failed => Failed
        case Got(fields, next) => Got(Object(fields), next)
    else
      var n := NumberEnd(s, i);
      if n > i then Got(Number(s[i..n]), n) else Failed
  }

  /** One or more comma-separated items and the closing bracket. */
  function ReadItems(s: string, i: nat): (r: Parsed<seq<Json>>)
    ensures r.Got? ==> i < r.next <= |s|
    decreases |s| - i, 1
  {
    match Read(s, i)
    case Failed => Failed
    case Got(item, j) =>
      if j < |s| && s[j] == ']' then Got([item], j + 1)
      else if j < |s| && s[j] == ',' then
        match ReadItems(s, j + 1)
        case Failed => Failed
        case Got(items, k) => Got([item] + items, k)
      else Failed
  }

  /** One or more comma-separated fields and the closing brace. */
  function ReadFields(s: string, i: nat): (r: Parsed<map<string, Json>>)
    ensures r.Got? ==> i < r.next <= |s|
    decreases |s| - i, 1
  {
    match ReadString(s, i)
    case Failed => Failed
    case Got(key, j) =>
      if j >= |s| || s[j] != ':' then Failed
      else match Read(s, j + 1)
        case Failed => Failed
        case Got(item, k) =>
          if k < |s| && s[k] == '}' then Got(map[key := item], k + 1)
          else if k < |s| && s[k] == ',' then
            match ReadFields(s, k + 1)
            case Failed => Failed
            case Got(fields, l) => Got(fields[key := item], l)
          else Failed
  }

  // ----- The reader inverts the printer ------------------------------------

  lemma ReadEscapedChar(s: string, i: nat, c: char)
    requires At(s, i, EscapeChar(c))
    ensures s[i] != '\"' && ReadChar(s, i) == Got(c, i + |EscapeChar(c)|)
  {
    var n := c as int;
    var e := EscapeChar(c);
    AtHead(s, i, e);
    if |e| >= 2 {
      assert s[i..i + |e|][1] == s[i + 1];
    }
    if |e| == 6 {
      var t := s[i..i + 6];
      assert t[2] == s[i + 2] && t[3] == s[i + 3] && t[4] == s[i + 4] && t[5] == s[i + 5];
      assert HexValue(HexDigit(n / 16)) == n / 16 && HexValue(HexDigit(n % 16)) == n % 16;
    }
  }

  lemma {:induction false} ReadEscapedBody(s: string, i: nat, t: string)
    requires At(s, i, Escape(t)) && At(s, i + |Escape(t)|, "\"")
    ensures ReadBody(s, i) == Got(t, i + |Escape(t)| + 1)
    decreases |t|
  {
    hide ReadChar, EscapeChar, At;
    AtHead(s, i + |Escape(t)|, "\"");
    if t != "" {
      AtConcat(s, i, EscapeChar(t[0]), Escape(t[1..]));
      ReadEscapedChar(s, i, t[0]);
      ReadEscapedBody(s, i + |EscapeChar(t[0])|, t[1..]);
      assert [t[0]] + t[1..] == t;
    }
  }

  lemma ReadPrintedString(s: string, i: nat, t: string)
    requires At(s, i, PrintString(t))
    ensures ReadString(s, i) == Got(t, i + |PrintString(t)|)
  {
    AtConcat(s, i, "\"" + Escape(t), "\"");
    AtConcat(s, i, "\"", Escape(t));
    AtHead(s, i, "\"");
    ReadEscapedBody(s, i + 1, t);
  }

  /** What may stand after a printed value: anything that cannot extend a number. */
  predicate DelimitedAt(s: string, i: nat) {
    i >= |s| || !IsNumberChar(s[i])
  }

  lemma {:induction false} NumberEndExact(s: string, i: nat, n: nat)
    requires i <= n <= |s| && DelimitedAt(s, n) && forall k :: i <= k < n ==> IsNumberChar(s[k])
    ensures NumberEnd(s, i) == n
    decreases n - i
  {
    if i < n {
      NumberEndExact(s, i + 1, n);
    }
  }

  /** Wherever `text` stands delimited, it reads as `v`. */
  ghost predicate Reads(text: string, v: Json) {
    forall s, i: nat :: At(s, i, text) && DelimitedAt(s, i + |text|) ==> Read(s, i) == Got(v, i + |text|)
  }

  lemma {:induction false} ReadJoinedItems(s: string, i: nat, parts: seq<string>, items: seq<Json>)
    requires |parts| == |items| > 0
    requires forall k :: 0 <= k < |items| ==> Reads(parts[k], items[k])
    requires At(s, i, Join(parts)) && i + |Join(parts)| < |s| && s[i + |Join(parts)|] == ']'
    ensures ReadItems(s, i) == Got(items, i + |Join(parts)| + 1)
    decreases |items|
  {
    hide Read, At;
    if |items| == 1 {
      assert [items[0]] == items;
    } else {
      var more := Join(parts[1..]);
      var j := i + |parts[0]|;
      AtConcat(s, i, parts[0], "," + more);
      AtConcat(s, j, ",", more);
      AtHead(s, j, ",");
      ReadJoinedItems(s, j + 1, parts[1..], items[1..]);
      assert [items[0]] + items[1..] == items;
    }
  }

  /** One field reads as its key, a colon and its value. */
  lemma ReadFieldStep(s: string, i: nat, key: string, text: string, v: Json)
    requires Reads(text, v) && At(s, i, FieldText(key, text)) && DelimitedAt(s, i + |FieldText(key, text)|)
    ensures var j := i + |PrintString(key)|;
            ReadString(s, i) == Got(key, j) && j < |s| && s[j] == ':'
            && Read(s, j + 1) == Got(v, i + |FieldText(key, text)|)
  {
    hide Read, ReadString, PrintString, At;
    var j := i + |PrintString(key)|;
    AtConcat(s, i, PrintString(key), ":" + text);
    AtConcat(s, j, ":", text);
    AtHead(s, j, ":");
    ReadPrintedString(s, i, key);
  }

  function Pick(fields: map<string, Json>, keys: seq<string>): map<string, Json>
    requires forall k :: k in keys ==> k in fields
  {
    map k | k in keys :: fields[k]
  }

  lemma PickSplit(fields: map<string, Json>, keys: seq<string>)
    requires keys != [] && forall k :: k in keys ==> k in fields
    ensures |keys| == 1 ==> Pick(fields, keys) == map[keys[0] := fields[keys[0]]]
    ensures Pick(fields, keys) == Pick(fields, keys[1..])[keys[0] := fields[keys[0]]]
  {
    assert keys == [keys[0]] + keys[1..];
  }

  lemma {:induction false} ReadJoinedFields(s: string, i: nat, texts: seq<string>, keys: seq<string>,
                                            fields: map<string, Json>, parts: seq<string>)
    requires |parts| == |texts| == |keys| > 0
    requires forall k :: k in keys ==> k in fields
    requires forall k :: 0 <= k < |keys| ==> Reads(texts[k], fields[keys[k]])
    requires forall k :: 0 <= k < |keys| ==> parts[k] == FieldText(keys[k], texts[k])
    requires At(s, i, Join(parts)) && i + |Join(parts)| < |s| && s[i + |Join(parts)|] == '}'
    ensures ReadFields(s, i) == Got(Pick(fields, keys), i + |Join(parts)| + 1)
    decreases |keys|
  {
    hide Read, ReadString, FieldText, PrintString, At, Pick;
    PickSplit(fields, keys);
    if |keys| == 1 {
      ReadFieldStep(s, i, keys[0], texts[0], fields[keys[0]]);
    } else {
      var more := Join(parts[1..]);
      var j := i + |parts[0]|;
      AtConcat(s, i, parts[0], "," + more);
      AtConcat(s, j, ",", more);
      AtHead(s, j, ",");
      ReadFieldStep(s, i, keys[0], texts[0], fields[keys[0]]);
      ReadJoinedFields(s, j + 1, texts[1..], keys[1..], fields, parts[1..]);
    }
  }

  /** A joined text starts as its first part does. */
  lemma JoinStart(parts: seq<string>)
    requires parts != [] && parts[0] != ""
    ensures Join(parts) != "" && Join(parts)[0] == parts[0][0]
  {
  }

  lemma PrintStart(v: Json)
    ensures Print(v) != "" && Print(v)[0] != ']'
  {
  }

  lemma {:induction false} ReadArray(s: string, i: nat, v: Json)
    requires v.Array?
    requires forall k :: 0 <= k < |v.items| ==> Reads(Print(v.items[k]), v.items[k])
    requires At(s, i, "[" + Join(ItemTexts(v)) + "]")
    ensures Read(s, i) == Got(v, i + |Join(ItemTexts(v))| + 2)
  {
    hide At, ReadFields, ReadItems, ReadString;
    var parts := ItemTexts(v);
    var body := Join(parts);
    AtConcat(s, i, "[" + body, "]");
    AtConcat(s, i, "[", body);
    AtHead(s, i, "[");
    AtHead(s, i + 1 + |body|, "]");
    if parts != [] {
      PrintStart(v.items[0]);
      JoinStart(parts);
      AtHead(s, i + 1, body);
      ReadJoinedItems(s, i + 1, parts, v.items);
    }
  }

  lemma {:induction false} ReadObject(s: string, i: nat, v: Json)
    requires v.Object?
    requires forall k :: k in v.fields ==> Reads(Print(v.fields[k]), v.fields[k])
    requires At(s, i, "{" + Join(FieldTexts(v)) + "}")
    ensures Read(s, i) == Got(v, i + |Join(FieldTexts(v))| + 2)
  {
    hide At, ReadFields, ReadItems, ReadString;
    var parts := FieldTexts(v);
    var body := Join(parts);
    AtConcat(s, i, "{" + body, "}");
    AtConcat(s, i, "{", body);
    AtHead(s, i, "{");
    AtHead(s, i + 1 + |body|, "}");
    if parts != [] {
      JoinStart(parts);
      AtHead(s, i + 1, body);
      ReadFieldTexts(s, i + 1, v);
    } else {
      assert v.fields == map[];
    }
  }

  lemma ReadFieldTexts(s: string, i: nat, v: Json)
    requires v.Object? && FieldTexts(v) != []
    requires forall k :: k in v.fields ==> Reads(Print(v.fields[k]), v.fields[k])
    requires At(s, i, Join(FieldTexts(v)))
    requires i + |Join(FieldTexts(v))| < |s| && s[i + |Join(FieldTexts(v))|] == '}'
    ensures ReadFields(s, i) == Got(v.fields, i + |Join(FieldTexts(v))| + 1)
  {
    hide Read, ReadFields, At, Join, Print, SortedKeys;
    var keys := SortedKeys(v.fields.Keys);
    forall k | 0 <= k < |keys| ensures keys[k] in v.fields { assert keys[k] in keys; }
    var texts := seq(|keys|, k requires 0 <= k < |keys| => Print(v.fields[keys[k]]));
    ReadJoinedFields(s, i, texts, keys, v.fields, FieldTexts(v));
    assert Pick(v.fields, keys) == v.fields;
  }

  lemma ReadScalar(s: string, i: nat, v: Json)
    requires !v.Array? && !v.Object?
    requires At(s, i, Print(v)) && DelimitedAt(s, i + |Print(v)|)
    ensures Read(s, i) == Got(v, i + |Print(v)|)
  {
    PrintStart(v);
    AtHead(s, i, Print(v));
    match v
    case Null =>
    case Bool(b) =>
    case Number(text) =>
      forall k | i <= k < i + |text| ensures s[k] == text[k - i] { assert s[i..i + |text|][k - i] == s[k]; }
      NumberEndExact(s, i, i + |text|);
    case String(t) =>
      ReadPrintedString(s, i, t);
  }

  /**
    Wherever a printed value stands, whatever surrounds it, reading from its
    first character gives the value back and stops at its last; the one thing
    asked of the text after it is that it does not continue a number.
   */
  lemma {:induction false} ReadPrint(s: string, i: nat, v: Json)
    requires At(s, i, Print(v)) && DelimitedAt(s, i + |Print(v)|)
    ensures Read(s, i) == Got(v, i + |Print(v)|)
    decreases v
  {
    if v.Array? {
      forall k | 0 <= k < |v.items| ensures Reads(Print(v.items[k]), v.items[k]) {
        PrintReads(v, v.items[k]);
      }
      ReadArray(s, i, v);
    } else if v.Object? {
      forall k | k in v.fields ensures Reads(Print(v.fields[k]), v.fields[k]) {
        PrintReads(v, v.fields[k]);
      }
      ReadObject(s, i, v);
    } else {
      ReadScalar(s, i, v);
    }
  }

  lemma {:induction false} PrintReads(parent: Json, v: Json)
    requires v < parent
    ensures Reads(Print(v), v)
    decreases parent, 0
  {
    forall s, i: nat | At(s, i, Print(v)) && DelimitedAt(s, i + |Print(v)|)
      ensures Read(s, i) == Got(v, i + |Print(v)|)
    {
      ReadPrint(s, i, v);
    }
  }

  /**
    Canonical JSON is unambiguous: two values print alike exactly when they are
    the same value (objects compared as maps, so key order plays no part), and
    no printed value is a proper prefix of another once a delimiter follows.
   */
  lemma PrintUnambiguous(a: Json, b: Json, x: string, y: string)
    requires DelimitedAt(x, 0) && DelimitedAt(y, 0)
    ensures Print(a) + x == Print(b) + y <==> a == b && x == y
  {
    var s := Print(a) + x;
    if s == Print(b) + y {
      ReadPrint(s, 0, a);
      ReadPrint(s, 0, b);
      assert x == s[|Print(a)|..] && y == s[|Print(b)|..];
    }
  }
}
