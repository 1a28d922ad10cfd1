/** The nesting guard that runs before the JSON decoder (queue/safe_task.py): one pass over the text with
    a depth and two flags, against the nesting depth of the value the text spells. */
module JsonGuard {
  import opened Hashing

  // ---------------------------------------------------------------------------------------------
  // The scanner
  // ---------------------------------------------------------------------------------------------

  /** TooDeep is the exception; GivenUp is the early return on a closing bracket too many, which leaves
      the text to the decoder. */
  datatype Scan = Scanning(depth: int, inString: bool, escaped: bool) | TooDeep | GivenUp

  function Outside(depth: int): Scan { Scanning(depth, false, false) }

  function Inside(depth: int): Scan { Scanning(depth, true, false) }

  function Advance(s: Scan, c: char, maximumDepth: int): Scan {
    if !s.Scanning? then s
    else if s.inString then
      if s.escaped then s.(escaped := false)
      else if c == '\\' then s.(escaped := true)
      else if c == '"' then s.(inString := false)
      else s
    else if c == '"' then s.(inString := true)
    else if c == '[' || c == '{' then
      if s.depth + 1 > maximumDepth then TooDeep else s.(depth := s.depth + 1)
    else if c == ']' || c == '}' then
      if s.depth - 1 < 0 then GivenUp else s.(depth := s.depth - 1)
    else s
  }

  function ScanFrom(s: Scan, text: string, maximumDepth: int): Scan {
    if text == [] then s
    else
      var n := |text| - 1;
      Advance(ScanFrom(s, text[..n], maximumDepth), text[n], maximumDepth)
  }

  predicate Accepts(text: string, maximumDepth: int) {
    ScanFrom(Outside(0), text, maximumDepth) != TooDeep
  }

  lemma {:induction false} ScanConcat(s: Scan, a: string, b: string, maximumDepth: int)
    ensures ScanFrom(s, a + b, maximumDepth) == ScanFrom(ScanFrom(s, a, maximumDepth), b, maximumDepth)
  {
    if b == [] {
      assert a + b == a;
    } else {
      var n := |b| - 1;
      ScanConcat(s, a, b[..n], maximumDepth);
      assert (a + b)[..|a + b| - 1] == a + b[..n];
    }
  }

  lemma ScanOne(s: Scan, c: char, maximumDepth: int)
    ensures ScanFrom(s, [c], maximumDepth) == Advance(s, c, maximumDepth)
  {
    assert [c][..0] == [];
  }

  lemma {:induction false} ScanStops(s: Scan, text: string, maximumDepth: int)
    requires !s.Scanning?
    ensures ScanFrom(s, text, maximumDepth) == s
  {
    if text != [] {
      ScanStops(s, text[..|text| - 1], maximumDepth);
    }
  }

  /** The text passes exactly when the scan does not end too deep. */
  method ValidateJsonNesting(text: string, maximumDepth: int) returns (ok: bool)
    ensures ok == Accepts(text, maximumDepth)
  {
    var depth, inString, escaped := 0, false, false;
    for k := 0 to |text|
      invariant ScanFrom(Outside(0), text[..k], maximumDepth) == Scanning(depth, inString, escaped)
    {
      var c := text[k];
      assert text[..k + 1][..k] == text[..k] && text == text[..k + 1] + text[k + 1..];
      ScanConcat(Outside(0), text[..k + 1], text[k + 1..], maximumDepth);
      if inString {
        if escaped {
          escaped := false;
        } else if c == '\\' {
          escaped := true;
        } else if c == '"' {
          inString := false;
        }
      } else if c == '"' {
        inString := true;
      } else if c == '[' || c == '{' {
        depth := depth + 1;
        if depth > maximumDepth {
          ScanStops(TooDeep, text[k + 1..], maximumDepth);
          return false;
        }
      } else if c == ']' || c == '}' {
        depth := depth - 1;
        if depth < 0 {
          ScanStops(GivenUp, text[k + 1..], maximumDepth);
          return true;
        }
      }
    }
    assert text[..|text|] == text;
    return true;
  }

  // ---------------------------------------------------------------------------------------------
  // JSON texts: RFC 8259, sections 2 to 7
  // ---------------------------------------------------------------------------------------------

  /** A character of a string: itself, a two-character escape, or a \u escape. */
  datatype Char = Plain(c: char) | Escape(e: char) | Unicode(hex: string)

  /** Minus sign, integer part, and optionally a fraction and an exponent with its letter and sign. */
  datatype Number = Number(minus: bool, whole: string, fraction: Option<string>, exponent: Option<Exponent>)

  datatype Exponent = Exponent(letter: char, sign: string, digits: string)

  /** A value together with the way it is written: every whitespace and every escape is kept. */
  datatype Json =
    | Word(word: string)
    | Num(number: Number)
    | Str(chars: seq<Char>)
    | Arr(blank: string, items: Items)
    | Obj(blank: string, members: Members)

  /** blank is the whitespace of an empty array or object. */
  datatype Items = NoItems | Item(before: string, value: Json, after: string, rest: Items)

  datatype Members =
    | NoMembers
    | Member(before: string, name: seq<Char>, beforeColon: string, afterColon: string, value: Json,
             after: string, rest: Members)

  predicate IsWs(text: string) {
    forall k :: 0 <= k < |text| ==> text[k] == ' ' || text[k] == '\t' || text[k] == '\n' || text[k] == '\r'
  }

  predicate IsDigits(text: string) {
    text != [] && forall k :: 0 <= k < |text| ==> '0' <= text[k] <= '9'
  }

  predicate IsHex(c: char) {
    '0' <= c <= '9' || 'a' <= c <= 'f' || 'A' <= c <= 'F'
  }

  predicate ValidChar(c: Char) {
    match c
    case Plain(x) => x >= ' ' && x != '"' && x != '\\'
    case Escape(e) => e in "\"\\/bfnrt"
    case Unicode(hex) => |hex| == 4 && forall k :: 0 <= k < 4 ==> IsHex(hex[k])
  }

  predicate ValidChars(chars: seq<Char>) {
    forall k :: 0 <= k < |chars| ==> ValidChar(chars[k])
  }

  predicate ValidNumber(n: Number) {
    && IsDigits(n.whole) && (|n.whole| > 1 ==> n.whole[0] != '0')
    && (n.fraction.Some? ==> IsDigits(n.fraction.value))
    && (n.exponent.Some? ==>
          var e := n.exponent.value;
          (e.letter == 'e' || e.letter == 'E') && (e.sign == "" || e.sign == "+" || e.sign == "-")
          && IsDigits(e.digits))
  }

  predicate Valid(v: Json) {
    match v
    case Word(word) => word == "true" || word == "false" || word == "null"
    case Num(number) => ValidNumber(number)
    case Str(chars) => ValidChars(chars)
    case Arr(blank, items) => IsWs(blank) && ValidItems(items)
    case Obj(blank, members) => IsWs(blank) && ValidMembers(members)
  }

  predicate ValidItems(items: Items) {
    items.NoItems?
    || (IsWs(items.before) && Valid(items.value) && IsWs(items.after) && ValidItems(items.rest))
  }

  predicate ValidMembers(ms: Members) {
    ms.NoMembers?
    || (&& IsWs(ms.before) && ValidChars(ms.name) && IsWs(ms.beforeColon) && IsWs(ms.afterColon)
        && Valid(ms.value) && IsWs(ms.after) && ValidMembers(ms.rest))
  }

  function CharText(c: Char): string {
    match c
    case Plain(x) => [x]
    case Escape(e) => ['\\'] + [e]
    case Unicode(hex) => ['\\'] + (['u'] + hex)
  }

  function CharsText(chars: seq<Char>): string {
    if chars == [] then [] else CharText(chars[0]) + CharsText(chars[1..])
  }

  function StringText(chars: seq<Char>): string {
    ['"'] + (CharsText(chars) + ['"'])
  }

  function NumberText(n: Number): string {
    (if n.minus then "-" else "") + n.whole
    + (if n.fraction.Some? then "." + n.fraction.value else "")
    + (if n.exponent.Some? then [n.exponent.value.letter] + n.exponent.value.sign + n.exponent.value.digits
       else "")
  }

  function Text(v: Json): string
    decreases v, 0
  {
    match v
    case Word(word) => word
    case Num(number) => NumberText(number)
    case Str(chars) => StringText(chars)
    case Arr(blank, items) => ['['] + ((if items.NoItems? then blank else ItemsText(items)) + [']'])
    case Obj(blank, members) => ['{'] + ((if members.NoMembers? then blank else MembersText(members)) + ['}'])
  }

  function ItemsText(items: Items): string
    decreases items, 0
  {
    if items.NoItems? then []
    else items.before + (Text(items.value) + (items.after + Tail(items.rest)))
  }

  function Tail(items: Items): string
    decreases items, 1
  {
    if items.NoItems? then [] else [','] + ItemsText(items)
  }

  function MembersText(ms: Members): string
    decreases ms, 0
  {
    if ms.NoMembers? then []
    else
      ms.before + (StringText(ms.name) + (ms.beforeColon + ([':'] + (ms.afterColon
      + (Text(ms.value) + (ms.after + MembersTail(ms.rest)))))))
  }

  function MembersTail(ms: Members): string
    decreases ms, 1
  {
    if ms.NoMembers? then [] else [','] + MembersText(ms)
  }

  function Max(a: nat, b: nat): nat { if a < b then b else a }

  /** How many arrays and objects enclose the innermost point of the value. */
  function Depth(v: Json): nat {
    match v
    case Arr(_, items) => 1 + ItemsDepth(items)
    case Obj(_, members) => 1 + MembersDepth(members)
    case _ => 0
  }

  function ItemsDepth(items: Items): nat {
    if items.NoItems? then 0 else Max(Depth(items.value), ItemsDepth(items.rest))
  }

  function MembersDepth(ms: Members): nat {
    if ms.NoMembers? then 0 else Max(Depth(ms.value), MembersDepth(ms.rest))
  }

  // ---------------------------------------------------------------------------------------------
  // What the scanner makes of a text
  // ---------------------------------------------------------------------------------------------

  /** No quote and no bracket. */
  predicate Neutral(c: char) {
    c != '"' && c != '[' && c != '{' && c != ']' && c != '}'
  }

  lemma {:induction false} ScanNeutral(depth: int, text: string, maximumDepth: int)
    requires forall k :: 0 <= k < |text| ==> Neutral(text[k])
    ensures ScanFrom(Outside(depth), text, maximumDepth) == Outside(depth)
  {
    if text != [] {
      ScanNeutral(depth, text[..|text| - 1], maximumDepth);
    }
  }

  lemma ScanThen(s: Scan, a: string, mid: Scan, b: string, maximumDepth: int)
    requires ScanFrom(s, a, maximumDepth) == mid
    ensures ScanFrom(s, a + b, maximumDepth) == ScanFrom(mid, b, maximumDepth)
  {
    ScanConcat(s, a, b, maximumDepth);
  }

  lemma ScanFirst(s: Scan, c: char, rest: string, maximumDepth: int)
    ensures ScanFrom(s, [c] + rest, maximumDepth) == ScanFrom(Advance(s, c, maximumDepth), rest, maximumDepth)
  {
    ScanOne(s, c, maximumDepth);
    ScanConcat(s, [c], rest, maximumDepth);
  }

  lemma {:induction false} ScanHex(depth: int, hex: string, maximumDepth: int)
    requires forall k :: 0 <= k < |hex| ==> IsHex(hex[k])
    ensures ScanFrom(Inside(depth), hex, maximumDepth) == Inside(depth)
  {
    if hex != [] {
      ScanHex(depth, hex[..|hex| - 1], maximumDepth);
    }
  }

  /** Inside a string a character, escaped quotes and brackets included, leaves the scanner inside. */
  lemma ScanChar(depth: int, c: Char, maximumDepth: int)
    requires ValidChar(c)
    ensures ScanFrom(Inside(depth), CharText(c), maximumDepth) == Inside(depth)
  {
    match c
    case Plain(x) => ScanOne(Inside(depth), x, maximumDepth);
    case Escape(e) =>
      ScanFirst(Inside(depth), '\\', [e], maximumDepth);
      ScanOne(Scanning(depth, true, true), e, maximumDepth);
    case Unicode(hex) =>
      ScanFirst(Inside(depth), '\\', ['u'] + hex, maximumDepth);
      ScanFirst(Scanning(depth, true, true), 'u', hex, maximumDepth);
      ScanHex(depth, hex, maximumDepth);
  }

  lemma {:induction false} ScanChars(depth: int, chars: seq<Char>, maximumDepth: int)
    requires ValidChars(chars)
    ensures ScanFrom(Inside(depth), CharsText(chars), maximumDepth) == Inside(depth)
  {
    if chars != [] {
      ScanChar(depth, chars[0], maximumDepth);
      ScanChars(depth, chars[1..], maximumDepth);
      ScanThen(Inside(depth), CharText(chars[0]), Inside(depth), CharsText(chars[1..]), maximumDepth);
    }
  }

  lemma ScanString(depth: int, chars: seq<Char>, maximumDepth: int)
    requires ValidChars(chars)
    ensures ScanFrom(Outside(depth), StringText(chars), maximumDepth) == Outside(depth)
  {
    ScanFirst(Outside(depth), '"', CharsText(chars) + ['"'], maximumDepth);
    ScanChars(depth, chars, maximumDepth);
    ScanThen(Inside(depth), CharsText(chars), Inside(depth), ['"'], maximumDepth);
    ScanOne(Inside(depth), '"', maximumDepth);
  }

  /** The verdict on something nested by so many levels, met at some depth. */
  function Verdict(depth: int, nesting: nat, maximumDepth: int): Scan {
    if nesting == 0 || depth + nesting <= maximumDepth then Outside(depth) else TooDeep
  }

  lemma VerdictThen(depth: int, a: string, x: nat, b: string, y: nat, maximumDepth: int)
    requires ScanFrom(Outside(depth), a, maximumDepth) == Verdict(depth, x, maximumDepth)
    requires ScanFrom(Outside(depth), b, maximumDepth) == Verdict(depth, y, maximumDepth)
    ensures ScanFrom(Outside(depth), a + b, maximumDepth) == Verdict(depth, Max(x, y), maximumDepth)
  {
    ScanConcat(Outside(depth), a, b, maximumDepth);
    ScanStops(TooDeep, b, maximumDepth);
  }

  lemma NeutralThen(depth: int, a: string, b: string, y: nat, maximumDepth: int)
    requires forall k :: 0 <= k < |a| ==> Neutral(a[k])
    requires ScanFrom(Outside(depth), b, maximumDepth) == Verdict(depth, y, maximumDepth)
    ensures ScanFrom(Outside(depth), a + b, maximumDepth) == Verdict(depth, y, maximumDepth)
  {
    ScanNeutral(depth, a, maximumDepth);
    VerdictThen(depth, a, 0, b, y, maximumDepth);
  }

  /** A bracketed text is one level deeper than what it holds. */
  lemma ScanBracketed(depth: int, open: char, inner: string, x: nat, close: char, maximumDepth: int)
    requires depth >= 0 && (open == '[' || open == '{') && (close == ']' || close == '}')
    requires ScanFrom(Outside(depth + 1), inner, maximumDepth) == Verdict(depth + 1, x, maximumDepth)
    ensures ScanFrom(Outside(depth), [open] + (inner + [close]), maximumDepth)
         == Verdict(depth, 1 + x, maximumDepth)
  {
    ScanFirst(Outside(depth), open, inner + [close], maximumDepth);
    if depth + 1 > maximumDepth {
      ScanStops(TooDeep, inner + [close], maximumDepth);
    } else {
      ScanConcat(Outside(depth + 1), inner, [close], maximumDepth);
      ScanOne(Verdict(depth + 1, x, maximumDepth), close, maximumDepth);
    }
  }

  lemma NumberNeutral(n: Number)
    requires ValidNumber(n)
    ensures forall k :: 0 <= k < |NumberText(n)| ==> Neutral(NumberText(n)[k])
  {
  }

  /** The scanner comes back to the depth it started from, outside any string, exactly when the value
      fits below the limit. */
  lemma {:induction false} ScanValue(depth: int, v: Json, maximumDepth: int)
    requires depth >= 0 && Valid(v)
    ensures ScanFrom(Outside(depth), Text(v), maximumDepth) == Verdict(depth, Depth(v), maximumDepth)
    decreases v, 0
  {
    match v
    case Word(word) => ScanNeutral(depth, word, maximumDepth);
    case Num(number) =>
      NumberNeutral(number);
      ScanNeutral(depth, NumberText(number), maximumDepth);
    case Str(chars) => ScanString(depth, chars, maximumDepth);
    case Arr(blank, items) =>
      var inner := if items.NoItems? then blank else ItemsText(items);
      if items.NoItems? {
        ScanNeutral(depth + 1, blank, maximumDepth);
      } else {
        ScanItems(depth + 1, items, maximumDepth);
      }
      ScanBracketed(depth, '[', inner, ItemsDepth(items), ']', maximumDepth);
    case Obj(blank, members) =>
      var inner := if members.NoMembers? then blank else MembersText(members);
      if members.NoMembers? {
        ScanNeutral(depth + 1, blank, maximumDepth);
      } else {
        ScanMembers(depth + 1, members, maximumDepth);
      }
      ScanBracketed(depth, '{', inner, MembersDepth(members), '}', maximumDepth);
  }

  lemma {:induction false} ScanItems(depth: int, items: Items, maximumDepth: int)
    requires depth >= 0 && ValidItems(items)
    ensures ScanFrom(Outside(depth), ItemsText(items), maximumDepth)
         == Verdict(depth, ItemsDepth(items), maximumDepth)
    decreases items, 0
  {
    if items.Item? {
      ScanTail(depth, items.rest, maximumDepth);
      NeutralThen(depth, items.after, Tail(items.rest), ItemsDepth(items.rest), maximumDepth);
      ScanValue(depth, items.value, maximumDepth);
      VerdictThen(depth, Text(items.value), Depth(items.value), items.after + Tail(items.rest),
                  ItemsDepth(items.rest), maximumDepth);
      NeutralThen(depth, items.before, Text(items.value) + (items.after + Tail(items.rest)),
                  ItemsDepth(items), maximumDepth);
    }
  }

  lemma {:induction false} ScanTail(depth: int, items: Items, maximumDepth: int)
    requires depth >= 0 && ValidItems(items)
    ensures ScanFrom(Outside(depth), Tail(items), maximumDepth)
         == Verdict(depth, ItemsDepth(items), maximumDepth)
    decreases items, 1
  {
    if items.Item? {
      ScanItems(depth, items, maximumDepth);
      NeutralThen(depth, [','], ItemsText(items), ItemsDepth(items), maximumDepth);
    }
  }

  lemma {:induction false} ScanMembers(depth: int, ms: Members, maximumDepth: int)
    requires depth >= 0 && ValidMembers(ms)
    ensures ScanFrom(Outside(depth), MembersText(ms), maximumDepth)
         == Verdict(depth, MembersDepth(ms), maximumDepth)
    decreases ms, 0
  {
    if ms.Member? {
      var after := ms.after + MembersTail(ms.rest);
      var value := Text(ms.value) + after;
      ScanMembersTail(depth, ms.rest, maximumDepth);
      NeutralThen(depth, ms.after, MembersTail(ms.rest), MembersDepth(ms.rest), maximumDepth);
      ScanValue(depth, ms.value, maximumDepth);
      VerdictThen(depth, Text(ms.value), Depth(ms.value), after, MembersDepth(ms.rest), maximumDepth);
      ScanName(depth, ms, value, maximumDepth);
    }
  }

  /** A member's name and colon leave the scanner where it was for what follows. */
  lemma ScanName(depth: int, ms: Members, value: string, maximumDepth: int)
    requires depth >= 0 && ValidMembers(ms) && ms.Member?
    requires ScanFrom(Outside(depth), value, maximumDepth) == Verdict(depth, MembersDepth(ms), maximumDepth)
    ensures var colon := ms.beforeColon + ([':'] + (ms.afterColon + value));
            && ScanFrom(Outside(depth), ms.before + (StringText(ms.name) + colon), maximumDepth)
            == Verdict(depth, MembersDepth(ms), maximumDepth)
  {
    var colon := ms.beforeColon + ([':'] + (ms.afterColon + value));
    NeutralThen(depth, ms.afterColon, value, MembersDepth(ms), maximumDepth);
    NeutralThen(depth, [':'], ms.afterColon + value, MembersDepth(ms), maximumDepth);
    NeutralThen(depth, ms.beforeColon, [':'] + (ms.afterColon + value), MembersDepth(ms), maximumDepth);
    ScanString(depth, ms.name, maximumDepth);
    VerdictThen(depth, StringText(ms.name), 0, colon, MembersDepth(ms), maximumDepth);
    NeutralThen(depth, ms.before, StringText(ms.name) + colon, MembersDepth(ms), maximumDepth);
  }

  lemma {:induction false} ScanMembersTail(depth: int, ms: Members, maximumDepth: int)
    requires depth >= 0 && ValidMembers(ms)
    ensures ScanFrom(Outside(depth), MembersTail(ms), maximumDepth)
         == Verdict(depth, MembersDepth(ms), maximumDepth)
    decreases ms, 1
  {
    if ms.Member? {
      ScanMembers(depth, ms, maximumDepth);
      NeutralThen(depth, [','], MembersText(ms), MembersDepth(ms), maximumDepth);
    }
  }

  /** A JSON text, whitespace around it included, passes the guard exactly when its value nests no
      deeper than the limit (a scalar passes any limit), and the scan then ends where it began. */
  lemma GuardMeasuresDepth(before: string, v: Json, after: string, maximumDepth: int)
    requires IsWs(before) && Valid(v) && IsWs(after)
    ensures var text := before + (Text(v) + after);
            && (Accepts(text, maximumDepth) <==> Depth(v) == 0 || Depth(v) <= maximumDepth)
            && (Accepts(text, maximumDepth) ==> ScanFrom(Outside(0), text, maximumDepth) == Outside(0))
  {
    ScanValue(0, v, maximumDepth);
    ScanNeutral(0, after, maximumDepth);
    VerdictThen(0, Text(v), Depth(v), after, 0, maximumDepth);
    NeutralThen(0, before, Text(v) + after, Depth(v), maximumDepth);
  }

  /** A text cut off or continued: what is accepted is accepted in every beginning of it. */
  lemma AcceptsPrefix(text: string, k: nat, maximumDepth: int)
    requires k <= |text| && Accepts(text, maximumDepth)
    ensures Accepts(text[..k], maximumDepth)
  {
    assert text == text[..k] + text[k..];
    ScanConcat(Outside(0), text[..k], text[k..], maximumDepth);
    if ScanFrom(Outside(0), text[..k], maximumDepth) == TooDeep {
      ScanStops(TooDeep, text[k..], maximumDepth);
    }
  }

  // ---------------------------------------------------------------------------------------------
  // Texts that need not be JSON
  // ---------------------------------------------------------------------------------------------

  /** Openings less closings of either kind of bracket. */
  function Balance(text: string): int {
    if text == [] then 0
    else
      var n := |text| - 1;
      var c := text[n];
      Balance(text[..n]) + if c in "[{" then 1 else if c in "]}" then -1 else 0
  }

  /** Nowhere in the text have more brackets been closed than opened. */
  ghost predicate NeverNegative(text: string) {
    forall k :: 0 <= k <= |text| ==> Balance(text[..k]) >= 0
  }

  /** Every opening bracket leaves no more open than the limit. */
  ghost predicate WithinLimit(text: string, maximumDepth: int) {
    forall k :: 0 <= k < |text| && text[k] in "[{" ==> Balance(text[..k + 1]) <= maximumDepth
  }

  lemma LimitNext(text: string, front: string, c: char, maximumDepth: int)
    requires text == front + [c]
    ensures Balance(text) == Balance(front) + if c in "[{" then 1 else if c in "]}" then -1 else 0
    ensures WithinLimit(text, maximumDepth) <==>
            WithinLimit(front, maximumDepth) && (c in "[{" ==> Balance(text) <= maximumDepth)
    ensures NeverNegative(text) ==> NeverNegative(front) && Balance(text) >= 0
  {
    assert text[..|front|] == front && text[..|front| + 1] == text;
    assert forall k :: 0 <= k <= |front| ==> front[..k] == text[..k];
    forall k | 0 <= k < |front| ensures text[..k + 1] == front[..k + 1] && text[k] == front[k] {
    }
  }

  /** A text without quotes that never closes more than it opens passes exactly when no opening bracket, of
      either kind, leaves more open than the limit, whether the text is JSON or not; and the scan counts. */
  lemma {:induction false} BracketsCount(text: string, maximumDepth: int)
    requires '"' !in text && NeverNegative(text)
    ensures ScanFrom(Outside(0), text, maximumDepth)
         == if WithinLimit(text, maximumDepth) then Outside(Balance(text)) else TooDeep
    ensures Accepts(text, maximumDepth) <==> WithinLimit(text, maximumDepth)
  {
    if text != [] {
      var front, c := text[..|text| - 1], text[|text| - 1];
      assert text == front + [c];
      LimitNext(text, front, c, maximumDepth);
      BracketsCount(front, maximumDepth);
    }
  }
}
