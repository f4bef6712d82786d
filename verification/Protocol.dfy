// Printing and parsing of protocol lines: server/src/protocol.c, the bounded
// escaping of server/src/handlers/handlers_common.c, and the key order in which
// client/src/network/cClientBridge.js prints a message.  C strings are strings
// without NUL.
module Protocol {
  import opened Xiangqi
  import opened Decimals
  import opened Sequences

  // ----- Escaping -----

  // tabs: json_escape escapes the tab, escape_json_string does not.
  function EscapeChar(c: char, tabs: bool): (e: string)
    ensures 1 <= |e| <= 2 && '\n' !in e
  {
    if c == '"' then "\\\""
    else if c == '\\' then "\\\\"
    else if c == '\n' then "\\n"
    else if c == '\r' then "\\r"
    else if c == '\t' && tabs then "\\t"
    else [c]
  }

  function Escape(s: string, tabs: bool): string {
    if s == "" then "" else Escape(s[..|s| - 1], tabs) + EscapeChar(s[|s| - 1], tabs)
  }

  function Unescape(s: string): string
    decreases |s|
  {
    if s == "" then ""
    else if s[0] == '\\' && |s| >= 2 then
      [if s[1] == 'n' then '\n' else if s[1] == 'r' then '\r' else if s[1] == 't' then '\t' else s[1]]
      + Unescape(s[2..])
    else [s[0]] + Unescape(s[1..])
  }

  lemma {:induction false} EscapeFromFront(c: char, s: string, tabs: bool)
    ensures Escape([c] + s, tabs) == EscapeChar(c, tabs) + Escape(s, tabs)
  {
    var t := [c] + s;
    if s == "" {
      assert t[..0] == "";
    } else {
      var s', last := s[..|s| - 1], s[|s| - 1];
      assert t[..|t| - 1] == [c] + s' && t[|t| - 1] == last;
      EscapeFromFront(c, s', tabs);
      Associates(EscapeChar(c, tabs), Escape(s', tabs), EscapeChar(last, tabs));
    }
  }

  // Escaping loses nothing.
  lemma {:induction false} UnescapeEscape(s: string, tabs: bool)
    ensures Unescape(Escape(s, tabs)) == s
  {
    if s != "" {
      EscapeFromFront(s[0], s[1..], tabs);
      assert s == [s[0]] + s[1..];
      UnescapeEscape(s[1..], tabs);
      UnescapeOne(s[0], Escape(s[1..], tabs), tabs);
    }
  }

  lemma UnescapeOne(c: char, rest: string, tabs: bool)
    ensures Unescape(EscapeChar(c, tabs) + rest) == [c] + Unescape(rest)
  {
    var e := EscapeChar(c, tabs);
    assert (e + rest)[|e|..] == rest;
  }

  // No raw newline survives, so an escaped text stays on its line; and it at most doubles.
  lemma {:induction false} EscapeIsOneLine(s: string, tabs: bool)
    ensures '\n' !in Escape(s, tabs) && |s| <= |Escape(s, tabs)| <= 2 * |s|
  {
    if s != "" {
      EscapeIsOneLine(s[..|s| - 1], tabs);
    }
  }

  // Where a reader that honours backslashes finds the quote that ends a string.
  function StringEnd(s: string): Option<nat>
    decreases |s|
  {
    if s == "" then None
    else if s[0] == '"' then Some(0)
    else
      var step := if s[0] == '\\' then 2 else 1;
      if |s| < step then None
      else
        match StringEnd(s[step..])
        case None => None
        case Some(k) => Some(k + step)
  }

  // To such a reader an escape ends where it was closed, whatever follows.
  lemma {:induction false} EscapeEndsAtItsQuote(s: string, tabs: bool, rest: string)
    ensures StringEnd(Escape(s, tabs) + ("\"" + rest)) == Some(|Escape(s, tabs)|)
  {
    if s == "" {
      assert Escape(s, tabs) + ("\"" + rest) == "\"" + rest;
    } else {
      EscapeFromFront(s[0], s[1..], tabs);
      assert s == [s[0]] + s[1..];
      EscapeEndsAtItsQuote(s[1..], tabs, rest);
      EndStep(s[0], tabs, Escape(s[1..], tabs) + ("\"" + rest));
      Associates(EscapeChar(s[0], tabs), Escape(s[1..], tabs), "\"" + rest);
    }
  }

  lemma EndStep(c: char, tabs: bool, t: string)
    requires StringEnd(t).Some?
    ensures StringEnd(EscapeChar(c, tabs) + t) == Some(|EscapeChar(c, tabs)| + StringEnd(t).value)
  {
    var e := EscapeChar(c, tabs);
    var u := e + t;
    assert u[0] == e[0] != '"' && (|e| == 2 <==> e[0] == '\\');
    assert u[|e|..] == t;
  }

  // A character JSON forbids raw inside a string.
  predicate Control(c: char) {
    c as int < 32
  }

  // Exactly when an escape is free of them, as section 7 of RFC 8259 demands: the text
  // has no control character but newline and carriage return and, for json_escape, tab.
  lemma {:induction false} EscapeIsStrictExactly(s: string, tabs: bool)
    ensures (exists c :: c in Escape(s, tabs) && Control(c)) <==>
              exists c :: c in s && Control(c) && c !in "\n\r" && !(tabs && c == '\t')
  {
    if s != "" {
      var n := |s| - 1;
      EscapeIsStrictExactly(s[..n], tabs);
      assert s == s[..n] + [s[n]];
      assert forall c :: c in s <==> c in s[..n] || c == s[n];
      assert forall c :: c in Escape(s, tabs) <==> c in Escape(s[..n], tabs) || c in EscapeChar(s[n], tabs);
    }
  }

  // Writes the one or two characters of an escape.
  method PutEscaped(dst: array<char>, d: nat, c: char, tabs: bool) returns (d': nat)
    requires d + |EscapeChar(c, tabs)| <= dst.Length
    modifies dst
    ensures d' == d + |EscapeChar(c, tabs)| && dst[..d'] == old(dst[..d]) + EscapeChar(c, tabs)
  {
    var e := EscapeChar(c, tabs);
    dst[d] := e[0];
    if |e| == 2 {
      dst[d + 1] := e[1];
    }
    d' := d + |e|;
  }

  // json_escape
  method JsonEscape(str: string) returns (escaped: array<char>, n: nat)
    requires '\0' !in str
    ensures n < escaped.Length && escaped[..n] == Escape(str, true) && escaped[n] == '\0'
  {
    escaped := new char[|str| * 2 + 1];
    n := 0;
    for i := 0 to |str|
      invariant escaped.Length == |str| * 2 + 1 && n <= 2 * i
      invariant escaped[..n] == Escape(str[..i], true)
    {
      assert str[..i + 1][..i] == str[..i];
      n := PutEscaped(escaped, n, str[i], true);
    }
    assert str[..|str|] == str;
    escaped[n] := '\0';
  }

  // How many characters of s escape_json_string takes with this much room left.
  function Cut(s: string, room: int): (k: nat)
    ensures k <= |s|
    decreases |s|
  {
    if s == "" || room <= 1 then 0 else 1 + Cut(s[1..], room - |EscapeChar(s[0], false)|)
  }

  lemma {:induction false} CutFits(s: string, room: nat)
    ensures |Escape(s[..Cut(s, room)], false)| <= room
    ensures Cut(s, room) == |s| || |Escape(s[..Cut(s, room)], false)| >= room - 1
  {
    var k := Cut(s, room);
    if k > 0 {
      var e := EscapeChar(s[0], false);
      CutFits(s[1..], room - |e|);
      assert s[..k] == [s[0]] + s[1..][..k - 1];
      EscapeFromFront(s[0], s[1..][..k - 1], false);
    }
  }

  // escape_json_string: the escape of a whole number of source characters, and of
  // as many as fit while two places are left, closed by a NUL inside dst.
  method EscapeJsonString(src: Option<string>, dst: array<char>)
    requires dst.Length >= 1 && (src.Some? ==> '\0' !in src.value)
    modifies dst
    ensures var s := if src.Some? then src.value else "";
            var out := Escape(s[..Cut(s, dst.Length - 1)], false);
            |out| < dst.Length && dst[..|out|] == out && dst[|out|] == '\0'
  {
    if src.None? {
      dst[0] := '\0';
      return;
    }
    var s := src.value;
    var d := EscapeLoop(s, dst);
    CutFits(s, dst.Length - 1);
    dst[d] := '\0';
  }

  // The copying loop; returns where the terminating NUL goes.
  method EscapeLoop(s: string, dst: array<char>) returns (d: nat)
    requires dst.Length >= 1
    modifies dst
    ensures d < dst.Length && dst[..d] == Escape(s[..Cut(s, dst.Length - 1)], false)
  {
    var i, remaining := 0, dst.Length - 1;
    d := 0;
    while i < |s| && remaining > 1
      invariant 0 <= i <= |s| && 0 <= remaining && d + remaining == dst.Length - 1
      invariant Cut(s, dst.Length - 1) == i + Cut(s[i..], remaining)
      invariant dst[..d] == Escape(s[..i], false)
    {
      CutStep(s, i, remaining);
      d := PutEscaped(dst, d, s[i], false);
      remaining := dst.Length - 1 - d;
      i := i + 1;
    }
  }

  lemma CutStep(s: string, i: nat, room: int)
    requires i < |s| && room > 1
    ensures Cut(s[i..], room) == 1 + Cut(s[i + 1..], room - |EscapeChar(s[i], false)|)
    ensures Escape(s[..i + 1], false) == Escape(s[..i], false) + EscapeChar(s[i], false)
  {
    assert s[i..][1..] == s[i + 1..] && s[..i + 1][..i] == s[..i];
  }

  // ----- Looking things up in a line -----

  // strstr: where pat first occurs, |s| if nowhere.
  function Find(s: string, pat: string): (i: nat)
    ensures i <= |s|
  {
    if |s| < |pat| then |s| else if s[..|pat|] == pat then 0 else if s == "" then 0 else 1 + Find(s[1..], pat)
  }

  predicate IsSpace(c: char) {
    c == ' ' || 9 <= c as int <= 13
  }

  function SkipSpace(s: string): string {
    if s != "" && IsSpace(s[0]) then SkipSpace(s[1..]) else s
  }

  function Named(key: string): string {
    "\"" + key + "\":"
  }

  // Blank, tab, newline, vertical tab, form feed and carriage return.
  const BLANKS := [' ', 9 as char, 10 as char, 11 as char, 12 as char, 13 as char]

  lemma {:induction false} BlanksAreSkipped(ws: string, v: string)
    requires (forall c :: c in ws ==> c in BLANKS) && (v != "" ==> v[0] !in BLANKS)
    ensures SkipSpace(ws + v) == v
  {
    if ws == "" {
      assert ws + v == v;
    } else {
      assert ws[0] in BLANKS && (ws + v)[1..] == ws[1..] + v;
      BlanksAreSkipped(ws[1..], v);
    }
  }

  // What follows "key": and white space, if the key occurs.
  function ValueOf(json: string, key: string): Option<string> {
    ValueAt(json, Find(json, Named(key)) + |Named(key)|)
  }

  function ValueAt(json: string, i: nat): Option<string> {
    if i > |json| then None else Some(SkipSpace(json[i..]))
  }

  // What a lookup finds does not depend on the blanks behind the colon.
  lemma ValueBehindBlanks(json: string, key: string, i: nat, ws: string, v: string)
    requires (forall c :: c in ws ==> c in BLANKS) && (v != "" ==> v[0] !in BLANKS)
    requires Find(json, Named(key)) + |Named(key)| == i <= |json| && json[i..] == ws + v
    ensures ValueOf(json, key) == Some(v)
  {
    BlanksAreSkipped(ws, v);
    ValueHere(json, key, i, v);
  }

  function QuoteAt(s: string): (k: nat)
    ensures k <= |s|
  {
    if s == "" || s[0] == '"' then 0 else 1 + QuoteAt(s[1..])
  }

  // json_get_string
  function GetString(json: string, key: string): Option<string> {
    match ValueOf(json, key)
    case None => None
    case Some(v) =>
      if v == "" || v[0] != '"' then None
      else
        var k := QuoteAt(v[1..]);
        if k == |v[1..]| then None else Some(v[1..][..k])
  }

  // json_get_int
  function GetInt(json: string, key: string): int {
    match ValueOf(json, key)
    case None => 0
    case Some(v) => Atoi(v)
  }

  // Length of s up to and including the brace that brings depth back to zero.
  function BraceEnd(s: string, depth: int): Option<nat> {
    if s == "" then None
    else
      var d := if s[0] == '{' then depth + 1 else if s[0] == '}' then depth - 1 else depth;
      if s[0] == '}' && d == 0 then Some(1)
      else
        match BraceEnd(s[1..], d)
        case None => None
        case Some(k) => Some(k + 1)
  }

  function PayloadOf(json: string): Option<string> {
    match ValueOf(json, "payload")
    case None => None
    case Some(v) =>
      if v == "" || v[0] != '{' then None
      else
        match BraceEnd(v, 0)
        case None => None
        case Some(k) => if k <= |v| then Some(v[..k]) else None
  }

  datatype Message = Message(kind: string, seq_: int, token: Option<string>, payload: string)

  // parse_message
  function ParseMessage(json: string): Option<Message> {
    var kind, payload := GetString(json, "type"), PayloadOf(json);
    if kind.None? || payload.None? then None
    else Some(Message(kind.value, GetInt(json, "seq"), GetString(json, "token"), payload.value))
  }

  // pat stands at i.
  predicate StandsAt(s: string, pat: string, i: nat) {
    i + |pat| <= |s| && s[i..][..|pat|] == pat
  }

  // strstr finds the first place, and none only if there is none.
  lemma {:induction false} FindsTheFirst(s: string, pat: string)
    requires pat != ""
    ensures if Find(s, pat) + |pat| <= |s| then StandsAt(s, pat, Find(s, pat)) else forall i :: !StandsAt(s, pat, i)
    ensures forall i: nat :: i < Find(s, pat) ==> !StandsAt(s, pat, i)
  {
    if |s| >= |pat| && s[..|pat|] != pat {
      FindsTheFirst(s[1..], pat);
      forall i: nat | i > 0 ensures StandsAt(s, pat, i) <==> StandsAt(s[1..], pat, i - 1) {
        if i + |pat| <= |s| {
          assert s[i..] == s[1..][i - 1..];
        }
      }
      assert s[0..] == s;
    } else if |s| >= |pat| {
      assert s[0..] == s;
    }
  }

  // A line without type or payload is no message; without seq its number is 0, and
  // without token it has none.
  lemma MissingKeys(json: string, key: string)
    requires forall i :: !StandsAt(json, Named(key), i)
    ensures GetString(json, key) == None && GetInt(json, key) == 0
    ensures key in {"type", "payload"} ==> ParseMessage(json) == None
    ensures ParseMessage(json).Some? ==>
              && (key == "seq" ==> ParseMessage(json).value.seq_ == 0)
              && (key == "token" ==> ParseMessage(json).value.token == None)
  {
    FindsTheFirst(json, Named(key));
  }

  // extract_payload: the brace-counting loop.
  method ExtractPayload(json: string) returns (payload: Option<string>)
    ensures payload == PayloadOf(json)
  {
    var i := Find(json, Named("payload"));
    if i + |Named("payload")| > |json| {
      return None;
    }
    var start := i + |Named("payload")|;
    ghost var v := SkipSpace(json[start..]);
    while start < |json| && IsSpace(json[start])
      invariant start <= |json| && SkipSpace(json[start..]) == v
      decreases |json| - start
    {
      start := start + 1;
    }
    assert json[start..] == v;
    if start == |json| || json[start] != '{' {
      return None;
    }
    var end := ClosingBrace(json, start);
    if end == -1 {
      return None;
    }
    assert v[..end - start] == json[start..end];
    return Some(json[start..end]);
  }

  // Scans from an opening brace to behind the one that closes it; -1 if none does.
  method ClosingBrace(json: string, start: nat) returns (end: int)
    requires start <= |json|
    ensures BraceEnd(json[start..], 0) == if end == -1 then None else Some(end - start)
    ensures end == -1 || start <= end <= |json|
  {
    ghost var goal := BraceEnd(json[start..], 0);
    var depth, p := 0, start;
    while p < |json|
      invariant start <= p <= |json|
      invariant goal == Plus(BraceEnd(json[p..], depth), p - start)
    {
      assert json[p..][0] == json[p] && json[p..][1..] == json[p + 1..];
      if json[p] == '{' {
        depth := depth + 1;
      } else if json[p] == '}' {
        depth := depth - 1;
        if depth == 0 {
          return p + 1;
        }
      }
      p := p + 1;
    }
    return -1;
  }

  function Plus(k: Option<nat>, n: nat): Option<nat> {
    if k.None? then None else Some(k.value + n)
  }

  // ----- The round trip -----

  function Quoted(s: string): string {
    "\"" + s + "\""
  }

  function TokenText(token: Option<string>): string {
    if token.None? then "null" else Quoted(token.value)
  }

  // A line as the client prints it: type, seq, token, payload, in this order.
  function Line(m: Message): string
  {
    LineWith(m, "}")
  }

  // The same with `close` for the final brace.
  function LineWith(m: Message, close: string): string
  {
    "{" + FromType(m, close)
  }

  function FromType(m: Message, close: string): string
  {
    Named("type") + (Quoted(m.kind) + ("," + FromSeq(m, close)))
  }

  function FromSeq(m: Message, close: string): string
  {
    Named("seq") + (DecInt(m.seq_) + ("," + FromToken(m, close)))
  }

  function FromToken(m: Message, close: string): string {
    Named("token") + (TokenText(m.token) + ("," + FromPayload(m, close)))
  }

  function FromPayload(m: Message, close: string): string {
    Named("payload") + (m.payload + close)
  }

  // The line as JSON.stringify and the server's format strings write it.
  lemma LineIsWritten(m: Message)
    ensures var token := if m.token.Some? then "\"" + m.token.value + "\"" else "null";
            Line(m) == "{" + ("\"type\":" + ("\"" + m.kind + "\"" + ("," + ("\"seq\":" + (DecInt(m.seq_) + ("," +
                       ("\"token\":" + (token + ("," + ("\"payload\":" + (m.payload + "}")))))))))))
  {
    NamesAreQuoted();
  }

  lemma NamesAreQuoted()
    ensures Named("type") == "\"type\":" && Named("seq") == "\"seq\":"
    ensures Named("token") == "\"token\":" && Named("payload") == "\"payload\":"
  {
  }

  // A character that is not a quote is stepped over.
  lemma SkipChar(c: char, rest: string, key: string)
    requires c != '"'
    ensures Find([c] + rest, Named(key)) == 1 + Find(rest, Named(key))
  {
    var s := [c] + rest;
    assert s[1..] == rest;
    if |s| >= |Named(key)| {
      assert s[..|Named(key)|][0] == c;
    }
  }

  lemma {:induction false} SkipText(text: string, rest: string, key: string)
    requires '"' !in text
    ensures Find(text + rest, Named(key)) == |text| + Find(rest, Named(key))
  {
    if text == "" {
      assert text + rest == rest;
    } else {
      assert text + rest == [text[0]] + (text[1..] + rest);
      SkipChar(text[0], text[1..] + rest, key);
      SkipText(text[1..], rest, key);
    }
  }

  // What follows a quote does not start with key and a closing `":`.
  predicate NotKey(rest: string, key: string) {
    |rest| < |key| + 2 || rest[..|key| + 2] != key + "\":"
  }

  // Such a quote is stepped over.
  lemma SkipQuote(rest: string, key: string)
    requires NotKey(rest, key)
    ensures Find("\"" + rest, Named(key)) == 1 + Find(rest, Named(key))
  {
    var s := "\"" + rest;
    assert s[1..] == rest;
    assert Named(key)[1..] == key + "\":";
    if |s| >= |Named(key)| {
      assert s[..|Named(key)|][1..] == rest[..|key| + 2];
    }
  }

  // A quoted text is stepped over unless it is the key itself and a colon follows.
  lemma SkipQuoted(text: string, rest: string, key: string)
    requires '"' !in text && '"' !in key && key != "" && rest != "" && rest[0] != key[0]
    requires text != key || rest[0] != ':'
    ensures Find(Quoted(text) + rest, Named(key)) == |Quoted(text)| + Find(rest, Named(key))
  {
    var tail := "\"" + rest;
    assert Quoted(text) + rest == "\"" + (text + tail);
    NotTheKey(text, rest, key);
    SkipQuote(text + tail, key);
    SkipText(text, tail, key);
    assert NotKey(rest, key) by {
      if |rest| >= |key| + 2 {
        assert rest[..|key| + 2][0] != (key + "\":")[0];
      }
    }
    SkipQuote(rest, key);
  }

  lemma NotTheKey(text: string, rest: string, key: string)
    requires '"' !in text && '"' !in key && rest != "" && (text != key || rest[0] != ':')
    ensures NotKey(text + ("\"" + rest), key)
  {
    var s, pat := text + ("\"" + rest), key + "\":";
    if |s| >= |pat| {
      var t := s[..|pat|];
      if |text| < |key| {
        assert t[|text|] == '"' && pat[|text|] == key[|text|] && key[|text|] in key;
      } else if |text| > |key| {
        assert t[|key|] == text[|key|] && text[|key|] in text && pat[|key|] == '"';
      } else if text != key {
        assert t[..|key|] == text && pat[..|key|] == key;
      } else {
        assert t[|key| + 1] == rest[0] && pat[|key| + 1] == ':';
      }
    }
  }

  // Another key is stepped over.
  lemma SkipName(other: string, rest: string, key: string)
    requires '"' !in other && '"' !in key && key != "" && key[0] != ':' && other != key
    ensures Find(Named(other) + rest, Named(key)) == |Named(other)| + Find(rest, Named(key))
  {
    assert Named(other) + rest == Quoted(other) + (":" + rest);
    SkipQuoted(other, ":" + rest, key);
    SkipText(":", rest, key);
  }

  lemma FoundHere(rest: string, key: string)
    ensures Find(Named(key) + rest, Named(key)) == 0
  {
    assert (Named(key) + rest)[..|Named(key)|] == Named(key);
  }

  lemma WhereType(m: Message, close: string)
    ensures Find(LineWith(m, close), Named("type")) == 1
  {
    SkipText("{", FromType(m, close), "type");
    FoundHere(Quoted(m.kind) + ("," + FromSeq(m, close)), "type");
  }

  // From the start of the line to what follows the type.
  lemma PastType(m: Message, close: string, key: string)
    requires '"' !in m.kind && key in {"seq", "token", "payload"}
    ensures Find(LineWith(m, close), Named(key))
         == |LineWith(m, close)| - |FromSeq(m, close)| + Find(FromSeq(m, close), Named(key))
  {
    SkipText("{", FromType(m, close), key);
    SkipName("type", Quoted(m.kind) + ("," + FromSeq(m, close)), key);
    SkipQuoted(m.kind, "," + FromSeq(m, close), key);
    SkipText(",", FromSeq(m, close), key);
  }

  lemma PastSeq(m: Message, close: string, key: string)
    requires key in {"token", "payload"}
    ensures Find(FromSeq(m, close), Named(key))
         == |FromSeq(m, close)| - |FromToken(m, close)| + Find(FromToken(m, close), Named(key))
  {
    SkipName("seq", DecInt(m.seq_) + ("," + FromToken(m, close)), key);
    SkipText(DecInt(m.seq_), "," + FromToken(m, close), key);
    SkipText(",", FromToken(m, close), key);
  }

  lemma PastToken(m: Message, close: string)
    requires m.token.Some? ==> '"' !in m.token.value
    ensures Find(FromToken(m, close), Named("payload"))
         == |FromToken(m, close)| - |FromPayload(m, close)| + Find(FromPayload(m, close), Named("payload"))
  {
    SkipName("token", TokenText(m.token) + ("," + FromPayload(m, close)), "payload");
    if m.token.Some? {
      SkipQuoted(m.token.value, "," + FromPayload(m, close), "payload");
    } else {
      SkipText("null", "," + FromPayload(m, close), "payload");
    }
    SkipText(",", FromPayload(m, close), "payload");
  }

  predicate EndsWith(s: string, t: string) {
    |t| <= |s| && s[|s| - |t|..] == t
  }

  lemma EndOfEnd(s: string, t: string, u: string)
    requires EndsWith(s, t) && EndsWith(t, u)
    ensures EndsWith(s, u)
  {
    assert s[|s| - |u|..] == t[|t| - |u|..];
  }

  // Each part of a line is one of its ends.
  lemma LineEnds(m: Message, close: string)
    ensures EndsWith(LineWith(m, close), FromSeq(m, close))
    ensures EndsWith(LineWith(m, close), FromToken(m, close))
    ensures EndsWith(LineWith(m, close), FromPayload(m, close))
  {
    assert LineWith(m, close) == ("{" + Named("type") + Quoted(m.kind) + ",") + FromSeq(m, close);
    assert FromSeq(m, close) == (Named("seq") + DecInt(m.seq_) + ",") + FromToken(m, close);
    assert FromToken(m, close) == (Named("token") + TokenText(m.token) + ",") + FromPayload(m, close);
    EndOfEnd(LineWith(m, close), FromSeq(m, close), FromToken(m, close));
    EndOfEnd(LineWith(m, close), FromToken(m, close), FromPayload(m, close));
  }

  lemma BehindName(json: string, name: string, v: string)
    requires EndsWith(json, name + v)
    ensures json[|json| - |v|..] == v
  {
    assert v == (name + v)[|name|..];
    assert json[|json| - |v|..] == json[|json| - |name + v|..][|name|..];
  }

  lemma ValueHere(json: string, key: string, i: nat, v: string)
    requires Find(json, Named(key)) + |Named(key)| == i && ValueAt(json, i) == Some(v)
    ensures ValueOf(json, key) == Some(v)
  {
  }

  lemma ValueAfter(json: string, i: nat, v: string)
    requires i <= |json| && json[i..] == v && v != "" && !IsSpace(v[0])
    ensures ValueAt(json, i) == Some(v)
  {
  }

  // The value found behind a key is what was printed there.
  lemma PrintedValue(json: string, key: string, v: string)
    requires EndsWith(json, Named(key) + v) && v != "" && !IsSpace(v[0])
    requires Find(json, Named(key)) == |json| - |Named(key) + v|
    ensures ValueOf(json, key) == Some(v)
  {
    var i := |json| - |v|;
    BehindName(json, Named(key), v);
    ValueAfter(json, i, v);
    ValueHere(json, key, i, v);
  }

  lemma {:induction false} QuoteAtEnd(text: string, rest: string)
    requires '"' !in text
    ensures QuoteAt(text + ("\"" + rest)) == |text|
  {
    if text != "" {
      assert (text + ("\"" + rest))[1..] == text[1..] + ("\"" + rest);
      QuoteAtEnd(text[1..], rest);
    }
  }

  lemma StringHere(json: string, key: string, text: string, rest: string)
    requires ValueOf(json, key) == Some(Quoted(text) + rest) && '"' !in text
    ensures GetString(json, key) == Some(text)
  {
    var v := Quoted(text) + rest;
    assert v[1..] == text + ("\"" + rest);
    QuoteAtEnd(text, rest);
  }

  // ----- Escaping against the parser -----

  // No character of s is one that json_escape rewrites.
  predicate Harmless(s: string) {
    forall c :: c in s ==> c !in {'"', '\\', '\n', '\r', '\t'}
  }

  lemma LastCharacter(t: string, c: char)
    ensures Harmless(t + [c]) <==> Harmless(t) && EscapeChar(c, true) == [c]
    ensures !Harmless(t + [c]) && Harmless(t) ==> |EscapeChar(c, true)| == 2
  {
    assert c in t + [c];
    assert forall x :: x in t + [c] <==> x in t || x == c;
  }

  lemma {:induction false} EscapeOfHarmless(s: string)
    ensures Harmless(s) ==> Escape(s, true) == s
    ensures !Harmless(s) ==> |Escape(s, true)| > |s|
    ensures '"' !in s ==> '"' !in Escape(s, true)
  {
    if s != "" {
      var t, c := s[..|s| - 1], s[|s| - 1];
      EscapeOfHarmless(t);
      EscapeIsOneLine(t, true);
      LastCharacter(t, c);
      assert s == t + [c];
    }
  }

  lemma {:induction false} QuoteAtFirst(s: string)
    ensures '"' !in s[..QuoteAt(s)]
    ensures QuoteAt(s) < |s| ==> s[QuoteAt(s)] == '"'
  {
    if QuoteAt(s) > 0 {
      QuoteAtFirst(s[1..]);
      assert s[..QuoteAt(s)] == [s[0]] + s[1..][..QuoteAt(s[1..])];
    }
  }

  // The parser stops at the first quote and does not unescape: an escaped value is
  // read back exactly when there was nothing to escape.
  lemma EscapedValueRoundTrip(json: string, key: string, text: string, rest: string)
    requires ValueOf(json, key) == Some(Quoted(Escape(text, true)) + rest)
    ensures GetString(json, key) == Some(text) <==> Harmless(text)
  {
    var e := Escape(text, true);
    EscapeOfHarmless(text);
    if '"' !in text {
      StringHere(json, key, e, rest);
    } else {
      var v := Quoted(e) + rest;
      QuoteAtFirst(v[1..]);
    }
  }

  // ----- Balanced braces -----

  function Depth(s: string): int {
    if s == "" then 0
    else Depth(s[1..]) + if s[0] == '{' then 1 else if s[0] == '}' then -1 else 0
  }

  // Depth zero is reached at the end and nowhere between.
  ghost predicate Balanced(s: string) {
    && s != "" && s[0] == '{' && Depth(s) == 0
    && forall k :: 0 < k < |s| ==> Depth(s[..k]) > 0
  }

  lemma {:induction false} BraceEndOf(s: string, depth: int, rest: string)
    requires s != "" && depth >= 0 && depth + Depth(s) == 0
    requires forall k :: 0 < k < |s| ==> depth + Depth(s[..k]) > 0
    requires s[0] == '{' || depth > 0
    ensures BraceEnd(s + rest, depth) == Some(|s|)
  {
    var t, c := s[1..], s[0];
    var d := if c == '{' then depth + 1 else if c == '}' then depth - 1 else depth;
    assert (s + rest)[1..] == t + rest && (s + rest)[0] == c;
    if t != "" {
      assert s[..1][0] == c && s[..1][1..] == "" && Depth(s[..1]) == d - depth;
      forall k | 0 < k < |t| ensures d + Depth(t[..k]) > 0 {
        assert s[..k + 1][1..] == t[..k] && s[..k + 1][0] == c;
        assert depth + Depth(s[..k + 1]) > 0;
      }
      BraceEndOf(t, d, rest);
    }
  }

  lemma PayloadHere(json: string, payload: string, rest: string)
    requires ValueOf(json, "payload") == Some(payload + rest) && Balanced(payload)
    ensures PayloadOf(json) == Some(payload)
  {
    BraceEndOf(payload, 0, rest);
    assert (payload + rest)[..|payload|] == payload;
  }

  // Whatever is printed is read back: type, sequence number, token and payload.
  lemma ParseLineWith(m: Message, close: string)
    requires Printable(m)
    ensures ParseMessage(LineWith(m, close)) == Some(m)
  {
    TypeHere(m, close);
    SeqHere(m, close);
    TokenHere(m, close);
    PayloadInLine(m, close);
  }

  // The messages a line can carry.
  ghost predicate Printable(m: Message) {
    '"' !in m.kind && (m.token.Some? ==> '"' !in m.token.value) && Balanced(m.payload)
  }

  // Exactly when a line is read back as it was printed.
  lemma ParseLine(m: Message)
    ensures ParseMessage(Line(m)) == Some(m) <==> Printable(m)
  {
    if Printable(m) {
      ParseLineWith(m, "}");
    }
    if ParseMessage(Line(m)) == Some(m) {
      ParsedIsPrintable(Line(m));
    }
  }

  // Whatever the parser makes of any text is quote-free and brace-balanced.
  lemma ParsedIsPrintable(json: string)
    ensures var r := ParseMessage(json); r.Some? ==> Printable(r.value)
  {
    StringIsQuoteFree(json, "type");
    StringIsQuoteFree(json, "token");
    PayloadIsBalanced(json);
  }

  lemma StringIsQuoteFree(json: string, key: string)
    ensures var r := GetString(json, key); r.Some? ==> '"' !in r.value
  {
    var v := ValueOf(json, key);
    if v.Some? && v.value != "" {
      QuoteAtFirst(v.value[1..]);
    }
  }

  lemma PayloadIsBalanced(json: string)
    ensures var r := PayloadOf(json); r.Some? ==> Balanced(r.value)
  {
    var v := ValueOf(json, "payload");
    if v.Some? && v.value != "" && v.value[0] == '{' {
      FirstCloseBalances(v.value, 0);
      assert var r := PayloadOf(json); r.Some? ==> forall k :: 0 <= k <= |r.value| ==> r.value[..k] == v.value[..k];
    }
  }

  // The scan ends where the depth first comes back to zero.
  lemma {:induction false} FirstCloseBalances(s: string, depth: nat)
    requires s != "" && (depth > 0 || s[0] == '{')
    ensures var r := BraceEnd(s, depth);
            r.Some? ==>
              && 0 < r.value <= |s| && depth + Depth(s[..r.value]) == 0
              && forall k :: 0 < k < r.value ==> depth + Depth(s[..k]) > 0
  {
    var r, t, c := BraceEnd(s, depth), s[1..], s[0];
    var d := if c == '{' then depth + 1 else if c == '}' then depth - 1 else depth;
    assert s[..1][0] == c && s[..1][1..] == "" && Depth(s[..1]) == d - depth;
    if r.Some? && r.value > 1 && t != "" {
      FirstCloseBalances(t, d);
      forall k | 1 < k <= r.value ensures Depth(s[..k]) == d - depth + Depth(t[..k - 1]) {
        assert s[..k][1..] == t[..k - 1] && s[..k][0] == c;
      }
    }
  }

  // A payload that lacks its last brace borrows the one that closes the line.
  lemma BorrowedBrace(m: Message)
    requires Printable(m.(payload := m.payload + "}"))
    ensures ParseMessage(Line(m)) == Some(m.(payload := m.payload + "}"))
  {
    var full := m.(payload := m.payload + "}");
    assert FromPayload(m, "}") == FromPayload(full, "");
    ParseLineWith(full, "");
  }

  predicate BraceFree(s: string) {
    '{' !in s && '}' !in s
  }

  lemma {:induction false} BraceEndSkips(text: string, rest: string, depth: int)
    requires BraceFree(text)
    ensures BraceEnd(text + rest, depth) == Plus(BraceEnd(rest, depth), |text|)
  {
    if text == "" {
      assert text + rest == rest;
    } else {
      assert (text + rest)[1..] == text[1..] + rest;
      BraceEndSkips(text[1..], rest, depth);
    }
  }

  // A chat message with one opening brace, as the client prints it.
  function ChatPayload(id: string, before: string, after: string): string {
    "{\"match_id\":\"" + id + "\",\"message\":\"" + before + "{" + after + "\"}"
  }

  lemma ChatNeedsABrace(id: string, before: string, after: string)
    requires BraceFree(id) && BraceFree(before) && BraceFree(after)
    ensures Balanced(ChatPayload(id, before, after) + "}")
  {
    var a, b := "\"match_id\":\"" + id + "\",\"message\":\"" + before, after + "\"";
    assert ChatPayload(id, before, after) + "}" == "{" + (a + ("{" + (b + "}}")));
    TwoOpeningBraces(a, b);
  }

  lemma TwoOpeningBraces(a: string, b: string)
    requires BraceFree(a) && BraceFree(b)
    ensures Balanced("{" + (a + ("{" + (b + "}}"))))
  {
    var u := "{" + (b + "}}");
    var s := "{" + (a + u);
    assert BraceEnd("}}", 2) == Some(2) by {
      assert "}}"[1..] == "}" && "}"[1..] == "";
    }
    BraceEndSkips(b, "}}", 2);
    assert u[1..] == b + "}}";
    BraceEndSkips(a, u, 1);
    assert s[1..] == a + u;
    FirstCloseBalances(s, 0);
    assert s[..|s|] == s;
  }

  // Such a message is not read back: it gets a brace too many.
  lemma ChatBraceIsMisread(id: string, before: string, after: string, seq_: int)
    requires BraceFree(id) && BraceFree(before) && BraceFree(after)
    ensures var m := Message("chat_message", seq_, None, ChatPayload(id, before, after));
            !Balanced(m.payload) && ParseMessage(Line(m)) == Some(m.(payload := m.payload + "}"))
  {
    var m := Message("chat_message", seq_, None, ChatPayload(id, before, after));
    ChatNeedsABrace(id, before, after);
    BorrowedBrace(m);
    ParseLine(m);
  }

  lemma TypeHere(m: Message, close: string)
    requires '"' !in m.kind
    ensures GetString(LineWith(m, close), "type") == Some(m.kind)
  {
    var v := Quoted(m.kind) + ("," + FromSeq(m, close));
    WhereType(m, close);
    assert LineWith(m, close)[1..] == Named("type") + v;
    PrintedValue(LineWith(m, close), "type", v);
    StringHere(LineWith(m, close), "type", m.kind, "," + FromSeq(m, close));
  }

  lemma SeqHere(m: Message, close: string)
    requires '"' !in m.kind
    ensures GetInt(LineWith(m, close), "seq") == m.seq_
  {
    var v := DecInt(m.seq_) + ("," + FromToken(m, close));
    PastType(m, close, "seq");
    FoundHere(v, "seq");
    LineEnds(m, close);
    PrintedValue(LineWith(m, close), "seq", v);
    AtoiOfDecInt(m.seq_, "," + FromToken(m, close));
  }

  lemma TokenHere(m: Message, close: string)
    requires '"' !in m.kind && (m.token.Some? ==> '"' !in m.token.value)
    ensures GetString(LineWith(m, close), "token") == m.token
  {
    var v := TokenText(m.token) + ("," + FromPayload(m, close));
    PastType(m, close, "token");
    PastSeq(m, close, "token");
    FoundHere(v, "token");
    LineEnds(m, close);
    PrintedValue(LineWith(m, close), "token", v);
    TokenIsRead(LineWith(m, close), m.token, "," + FromPayload(m, close));
  }

  lemma TokenIsRead(json: string, token: Option<string>, rest: string)
    requires ValueOf(json, "token") == Some(TokenText(token) + rest) && (token.Some? ==> '"' !in token.value)
    ensures GetString(json, "token") == token
  {
    if token.Some? {
      StringHere(json, "token", token.value, rest);
    } else {
      assert ("null" + rest)[0] == 'n';
    }
  }

  // Where the payload's name stands in a line.
  lemma WherePayload(m: Message, close: string)
    requires '"' !in m.kind && (m.token.Some? ==> '"' !in m.token.value)
    ensures Find(LineWith(m, close), Named("payload")) == |LineWith(m, close)| - |FromPayload(m, close)|
  {
    PastType(m, close, "payload");
    PastSeq(m, close, "payload");
    PastToken(m, close);
    FoundHere(m.payload + close, "payload");
  }

  lemma PayloadInLine(m: Message, close: string)
    requires Printable(m)
    ensures PayloadOf(LineWith(m, close)) == Some(m.payload)
  {
    WherePayload(m, close);
    LineEnds(m, close);
    PrintedValue(LineWith(m, close), "payload", m.payload + close);
    PayloadHere(LineWith(m, close), m.payload, close);
  }

  // ----- create_response: the same line, through a buffer of 4096 bytes -----

  const RESPONSE_SIZE := 4096

  function CreateResponse(m: Message): string
  {
    if |Line(m)| < RESPONSE_SIZE then Line(m) else Line(m)[..RESPONSE_SIZE - 1]
  }

  // What is found in a prefix is found in the whole, and the other way round.
  lemma {:induction false} FindInPrefix(s: string, n: nat, pat: string)
    requires n <= |s| && pat != ""
    ensures Find(s, pat) + |pat| <= n ==> Find(s[..n], pat) == Find(s, pat)
    ensures Find(s[..n], pat) + |pat| <= n ==> Find(s, pat) == Find(s[..n], pat)
  {
    if n >= |pat| {
      assert s[..n][..|pat|] == s[..|pat|];
      assert s[..n][1..] == s[1..][..n - 1];
      FindInPrefix(s[1..], n - 1, pat);
    }
  }

  lemma {:induction false} Unclosed(s: string, depth: int)
    requires depth >= 0 && forall k :: 0 < k <= |s| ==> depth + Depth(s[..k]) > 0
    ensures BraceEnd(s, depth) == None
  {
    if s != "" {
      var t, c := s[1..], s[0];
      var d := if c == '{' then depth + 1 else if c == '}' then depth - 1 else depth;
      assert s[..1][0] == c && s[..1][1..] == "" && Depth(s[..1]) == d - depth;
      forall k | 0 < k <= |t| ensures d + Depth(t[..k]) > 0 {
        assert s[..k + 1][1..] == t[..k] && s[..k + 1][0] == c;
        assert depth + Depth(s[..k + 1]) > 0;
      }
      Unclosed(t, d);
    }
  }

  // A proper beginning of a balanced payload, with nothing behind it, is no payload.
  lemma CutPayload(payload: string, n: nat)
    requires Balanced(payload) && n < |payload|
    ensures n > 0 ==> payload[..n][0] == '{' && BraceEnd(payload[..n], 0) == None
  {
    var v := payload[..n];
    if n > 0 {
      forall k | 0 < k <= |v| ensures 0 + Depth(v[..k]) > 0 {
        assert v[..k] == payload[..k];
      }
      Unclosed(v, 0);
    }
  }

  // What a cut line holds behind the payload's name is a beginning of the payload.
  lemma CutValue(m: Message, n: nat)
    requires |Line(m)| - |FromPayload(m, "}")| + |Named("payload")| <= n < |Line(m)| - 1
    ensures var start := |Line(m)| - |FromPayload(m, "}")| + |Named("payload")|;
            n - start < |m.payload| && Line(m)[..n][start..] == m.payload[..n - start]
  {
    LineEnds(m, "}");
    CutBehindName(Line(m), Named("payload"), m.payload, "}", n);
  }

  lemma CutBehindName(json: string, name: string, v: string, close: string, n: nat)
    requires EndsWith(json, name + (v + close)) && |json| - |v + close| <= n < |json| - |close|
    ensures var start := |json| - |v + close|;
            n - start < |v| && json[..n][start..] == v[..n - start]
  {
    BehindName(json, name, v + close);
    CutAndDrop(json, n, |json| - |v + close|);
    assert (v + close)[..n - (|json| - |v + close|)] == v[..n - (|json| - |v + close|)];
  }

  lemma CutAndDrop(s: string, n: nat, start: nat)
    requires start <= n <= |s|
    ensures s[..n][start..] == s[start..][..n - start]
  {
  }

  // A line cut before the end of its payload is not parsed.
  lemma CutLineIsRejected(m: Message, n: nat)
    requires Printable(m)
    requires n < |Line(m)| - 1
    ensures ParseMessage(Line(m)[..n]) == None
  {
    var cut, pat := Line(m)[..n], Named("payload");
    WherePayload(m, "}");
    FindInPrefix(Line(m), n, pat);
    if Find(cut, pat) + |pat| <= n {
      var start := Find(cut, pat) + |pat|;
      CutValue(m, n);
      CutPayload(m.payload, n - start);
      CutValueIsNoPayload(cut, m.payload[..n - start]);
    }
  }

  lemma CutValueIsNoPayload(json: string, v: string)
    requires var i := Find(json, Named("payload")) + |Named("payload")|; i <= |json| && json[i..] == v
    requires v != "" ==> v[0] == '{' && BraceEnd(v, 0) == None
    ensures PayloadOf(json) == None
  {
  }

  lemma Reclosed(m: Message)
    ensures Line(m) == LineWith(m, "") + "}"
  {
    assert FromPayload(m, "}") == FromPayload(m, "") + "}";
    assert FromToken(m, "}") == FromToken(m, "") + "}";
    assert FromSeq(m, "}") == FromSeq(m, "") + "}";
  }

  // A response is read back exactly when it is printable and its line is at most 4096
  // characters: the one that is cut then is the final brace, which the parser does
  // not need.
  lemma ResponseRoundTrip(m: Message)
    ensures ParseMessage(CreateResponse(m)) == Some(m) <==> Printable(m) && |Line(m)| <= 4096
  {
    if Printable(m) {
      if |Line(m)| < RESPONSE_SIZE {
        ParseLine(m);
      } else if |Line(m)| == RESPONSE_SIZE {
        ParseLineWith(m, "");
        Reclosed(m);
        assert CreateResponse(m) == LineWith(m, "");
      } else {
        CutLineIsRejected(m, RESPONSE_SIZE - 1);
      }
    } else {
      ParsedIsPrintable(CreateResponse(m));
    }
  }
}
