/** Audit lines: what is written can be read back, byte for byte. */
module AuditLine {
  import opened Wrappers

  datatype EventType = TokenAccepted | TokenRejected | AuthzAllow | AuthzDeny | JwksRefresh

  datatype Event = Event(timestamp: int, eventType: EventType, subject: string, issuer: string, kid: string,
                         tokenHash: string, action: string, reason: string)

  function TypeName(t: EventType): string {
    match t
    case TokenAccepted => "token_accepted"
    case TokenRejected => "token_rejected"
    case AuthzAllow => "authz_allow"
    case AuthzDeny => "authz_deny"
    case JwksRefresh => "jwks_refresh"
  }

  // ---- Values ----

  predicate Control(c: char) {
    c as int < 0x20 || c as int == 0x7f
  }

  predicate Special(c: char) {
    c == ' ' || c == '=' || c == '"' || c == '\\' || Control(c)
  }

  predicate Plain(v: string) {
    v != "" && forall i :: 0 <= i < |v| ==> !Special(v[i])
  }

  const HEX := "0123456789abcdef"

  function Escape(c: char): string {
    if c == '"' || c == '\\' then ['\\', c]
    else if c == '\r' then ['\\', 'r']
    else if c == '\n' then ['\\', 'n']
    else if c == '\t' then ['\\', 't']
    else if Control(c) then ['\\', 'x', HEX[c as int / 16], HEX[c as int % 16]]
    else [c]
  }

  function EscapeAll(v: string): string {
    if v == "" then "" else Escape(v[0]) + EscapeAll(v[1..])
  }

  function Quoted(v: string): string {
    if Plain(v) then v else "\"" + EscapeAll(v) + "\""
  }

  // ---- Lines ----

  function Digit(n: nat): char
    requires n < 10
  {
    HEX[n]
  }

  function Digits(n: nat): (s: string)
    ensures s != ""
  {
    if n < 10 then [Digit(n)] else Digits(n / 10) + [Digit(n % 10)]
  }

  function Decimal(n: int): string {
    if n < 0 then "-" + Digits(-n) else Digits(n)
  }

  function Field(key: string, value: string): string {
    if value == "" then "" else " " + key + "=" + Quoted(value)
  }

  const KEYS := ["sub", "iss", "kid", "action", "reason", "token"]

  function Values(e: Event): seq<string> {
    [e.subject, e.issuer, e.kid, e.action, e.reason, e.tokenHash]
  }

  function Fields(keys: seq<string>, values: seq<string>): string
    requires |keys| == |values|
  {
    if keys == [] then "" else Field(keys[0], values[0]) + Fields(keys[1..], values[1..])
  }

  function Format(e: Event): string {
    "ts=" + (Decimal(e.timestamp) + (" event=" + (TypeName(e.eventType) + Fields(KEYS, Values(e)))))
  }

  // ---- Reading a line back ----

  datatype Parsed<T> = Parsed(value: T, rest: string)

  function TakeWord(s: string): Parsed<string> {
    if s == "" || s[0] == ' ' then Parsed("", s)
    else var p := TakeWord(s[1..]); Parsed([s[0]] + p.value, p.rest)
  }

  function HexValue(c: char): Option<nat> {
    if '0' <= c <= '9' then Some(c as int - '0' as int)
    else if 'a' <= c <= 'f' then Some(c as int - 'a' as int + 10)
    else None
  }

  // One character of a quoted value.
  function TakeChar(s: string): Option<Parsed<char>>
    requires s != ""
  {
    if s[0] != '\\' then Some(Parsed(s[0], s[1..]))
    else if |s| < 2 then None
    else if s[1] == '"' || s[1] == '\\' then Some(Parsed(s[1], s[2..]))
    else if s[1] == 'r' then Some(Parsed('\r', s[2..]))
    else if s[1] == 'n' then Some(Parsed('\n', s[2..]))
    else if s[1] == 't' then Some(Parsed('\t', s[2..]))
    else if s[1] == 'x' && |s| >= 4 && HexValue(s[2]).Some? && HexValue(s[3]).Some?
         then Some(Parsed((16 * HexValue(s[2]).value + HexValue(s[3]).value) as char, s[4..]))
    else None
  }

  function TakeQuoted(s: string): Option<Parsed<string>>
    decreases |s|
  {
    if s == "" then None
    else if s[0] == '"' then Some(Parsed("", s[1..]))
    else
      var c := TakeChar(s);
      if c.None? || |c.value.rest| >= |s| then None
      else
        var p := TakeQuoted(c.value.rest);
        if p.None? then None else Some(Parsed([c.value.value] + p.value.value, p.value.rest))
  }

  function TakeValue(s: string): Option<Parsed<string>> {
    if s != "" && s[0] == '"' then TakeQuoted(s[1..]) else Some(TakeWord(s))
  }

  function TakeField(key: string, s: string): Option<Parsed<string>> {
    var lead := " " + key + "=";
    if lead <= s then TakeValue(s[|lead|..]) else Some(Parsed("", s))
  }

  function TakeFields(keys: seq<string>, s: string): Option<seq<string>> {
    if keys == [] then (if s == "" then Some([]) else None)
    else
      var p := TakeField(keys[0], s);
      if p.None? then None
      else
        var more := TakeFields(keys[1..], p.value.rest);
        if more.None? then None else Some([p.value.value] + more.value)
  }

  function ReadDigits(s: string): Option<nat> {
    if s == "" then None
    else
      var d := HexValue(s[|s| - 1]);
      if d.None? || d.value >= 10 then None
      else if |s| == 1 then d
      else var high := ReadDigits(s[..|s| - 1]); if high.None? then None else Some(10 * high.value + d.value)
  }

  function ReadDecimal(s: string): Option<int> {
    if s != "" && s[0] == '-' then
      (var n := ReadDigits(s[1..]); if n.None? then None else Some(0 - n.value as int))
    else
      (var n := ReadDigits(s); if n.None? then None else Some(n.value as int))
  }

  function ReadType(s: string): Option<EventType> {
    if s == "token_accepted" then Some(TokenAccepted)
    else if s == "token_rejected" then Some(TokenRejected)
    else if s == "authz_allow" then Some(AuthzAllow)
    else if s == "authz_deny" then Some(AuthzDeny)
    else if s == "jwks_refresh" then Some(JwksRefresh)
    else None
  }

  function TakeLead(lead: string, s: string): Option<string> {
    if lead <= s then Some(s[|lead|..]) else None
  }

  function Read(line: string): Option<Event> {
    var a := TakeLead("ts=", line);
    if a.None? then None
    else
      var stamp := TakeWord(a.value);
      var b := TakeLead(" event=", stamp.rest);
      if b.None? then None
      else
        var name := TakeWord(b.value);
        var n, t, v := ReadDecimal(stamp.value), ReadType(name.value), TakeFields(KEYS, name.rest);
        if n.None? || t.None? || v.None? || |v.value| != 6 then None
        else Some(Event(n.value, t.value, v.value[0], v.value[1], v.value[2], v.value[5], v.value[3], v.value[4]))
  }

  // ---- Reading undoes writing ----

  // Where a word may end.
  predicate Boundary(s: string) {
    s == "" || s[0] == ' '
  }

  lemma {:induction false} WordIsTaken(v: string, rest: string)
    requires (forall i :: 0 <= i < |v| ==> v[i] != ' ') && Boundary(rest)
    ensures TakeWord(v + rest) == Parsed(v, rest)
  {
    if v == "" {
      assert v + rest == rest;
    } else {
      assert (v + rest)[1..] == v[1..] + rest && v == [v[0]] + v[1..];
      WordIsTaken(v[1..], rest);
    }
  }

  lemma HexRoundTrip(n: nat)
    requires n < 16
    ensures HexValue(HEX[n]) == Some(n)
  {
  }

  lemma CharIsTaken(c: char, rest: string)
    ensures Escape(c) != "" && Escape(c)[0] != '"'
    ensures TakeChar(Escape(c) + rest) == Some(Parsed(c, rest))
  {
    if |Escape(c)| == 4 {
      HexIsTaken(c, rest);
    } else {
      ShortIsTaken(c, rest);
    }
  }

  lemma ShortIsTaken(c: char, rest: string)
    requires |Escape(c)| < 4
    ensures TakeChar(Escape(c) + rest) == Some(Parsed(c, rest))
  {
    assert (Escape(c) + rest)[|Escape(c)|..] == rest;
  }

  lemma HexIsTaken(c: char, rest: string)
    requires |Escape(c)| == 4
    ensures TakeChar(Escape(c) + rest) == Some(Parsed(c, rest))
  {
    var high, low := c as int / 16, c as int % 16;
    HexRoundTrip(high);
    HexRoundTrip(low);
    TakeHex(HEX[high], HEX[low], high, low, rest);
  }

  lemma TakeHex(a: char, b: char, high: nat, low: nat, rest: string)
    requires HexValue(a) == Some(high) && HexValue(b) == Some(low) && high < 16 && low < 16
    ensures TakeChar(['\\', 'x', a, b] + rest) == Some(Parsed((16 * high + low) as char, rest))
  {
    assert (['\\', 'x', a, b] + rest)[4..] == rest;
  }

  lemma Regroup(a: string, b: string, c: string)
    ensures (a + b) + c == a + (b + c)
  {
  }

  lemma TakeQuotedStep(c: char, written: string, more: string)
    requires written != "" && written[0] != '"' && TakeChar(written + more) == Some(Parsed(c, more))
    ensures var p := TakeQuoted(more);
            TakeQuoted(written + more) == if p.None? then None else Some(Parsed([c] + p.value.value, p.value.rest))
  {
    assert (written + more)[0] == written[0];
  }

  lemma {:induction false} QuotedIsTaken(v: string, rest: string)
    ensures TakeQuoted(EscapeAll(v) + ("\"" + rest)) == Some(Parsed(v, rest))
  {
    var tail := "\"" + rest;
    if v == "" {
      assert EscapeAll(v) + tail == tail;
      assert tail[1..] == rest;
    } else {
      QuotedIsTaken(v[1..], rest);
      OneMoreQuoted(v, tail, rest);
    }
  }

  lemma OneMoreQuoted(v: string, tail: string, rest: string)
    requires v != "" && TakeQuoted(EscapeAll(v[1..]) + tail) == Some(Parsed(v[1..], rest))
    ensures TakeQuoted(EscapeAll(v) + tail) == Some(Parsed(v, rest))
  {
    var more := EscapeAll(v[1..]) + tail;
    Regroup(Escape(v[0]), EscapeAll(v[1..]), tail);
    CharIsTaken(v[0], more);
    TakeQuotedStep(v[0], Escape(v[0]), more);
    assert v == [v[0]] + v[1..];
  }

  lemma OpenQuote(body: string, rest: string)
    ensures (("\"" + body + "\"") + rest)[0] == '"' && (("\"" + body + "\"") + rest)[1..] == body + ("\"" + rest)
  {
  }

  lemma ValueIsTaken(v: string, rest: string)
    requires v != "" && Boundary(rest)
    ensures TakeValue(Quoted(v) + rest) == Some(Parsed(v, rest))
  {
    if Plain(v) {
      assert (v + rest)[0] == v[0];
      WordIsTaken(v, rest);
    } else {
      QuotedIsTaken(v, rest);
      OpenQuote(EscapeAll(v), rest);
    }
  }

  // No two keys begin alike.
  predicate Distinguishable(keys: seq<string>) {
    && (forall i :: 0 <= i < |keys| ==> keys[i] != "")
    && forall i, j :: 0 <= i < j < |keys| ==> keys[i][0] != keys[j][0]
  }

  lemma FieldBegins(key: string, value: string, rest: string)
    requires key != ""
    ensures var s := Field(key, value) + rest;
            if value == "" then s == rest else |s| >= 2 && s[0] == ' ' && s[1] == key[0]
  {
    if value != "" {
      Regroup(" ", key, "=");
      assert Field(key, value)[1] == key[0];
    }
  }

  // The fields left to read begin with none of the keys already read.
  lemma {:induction false} FieldsBegin(keys: seq<string>, values: seq<string>, c: char)
    requires |keys| == |values| && Distinguishable(keys) && forall i :: 0 <= i < |keys| ==> keys[i][0] != c
    ensures var s := Fields(keys, values); s == "" || (|s| >= 2 && s[0] == ' ' && s[1] != c)
  {
    if keys != [] {
      FieldsBegin(keys[1..], values[1..], c);
      FieldBegins(keys[0], values[0], Fields(keys[1..], values[1..]));
    }
  }

  lemma FieldIsTaken(key: string, value: string, rest: string)
    requires key != "" && (rest == "" || (|rest| >= 2 && rest[0] == ' ' && rest[1] != key[0]))
    ensures TakeField(key, Field(key, value) + rest) == Some(Parsed(value, rest))
  {
    if value == "" {
      assert Field(key, value) + rest == rest;
      OtherLead(key, rest);
    } else {
      WrittenFieldIsTaken(key, value, rest);
    }
  }

  lemma OtherLead(key: string, rest: string)
    requires key != "" && (rest == "" || (|rest| >= 2 && rest[0] == ' ' && rest[1] != key[0]))
    ensures TakeField(key, rest) == Some(Parsed("", rest))
  {
    var lead := " " + key + "=";
    assert |lead| >= 2 && lead[1] == key[0];
  }

  lemma WrittenFieldIsTaken(key: string, value: string, rest: string)
    requires value != "" && Boundary(rest)
    ensures TakeField(key, Field(key, value) + rest) == Some(Parsed(value, rest))
  {
    Regroup(" " + key + "=", Quoted(value), rest);
    BehindLead(key, Quoted(value) + rest);
    ValueIsTaken(value, rest);
  }

  lemma BehindLead(key: string, s: string)
    ensures TakeField(key, " " + key + "=" + s) == TakeValue(s)
  {
    var lead := " " + key + "=";
    assert (lead + s)[|lead|..] == s;
  }

  lemma {:induction false} FieldsAreTaken(keys: seq<string>, values: seq<string>)
    requires |keys| == |values| && Distinguishable(keys)
    ensures TakeFields(keys, Fields(keys, values)) == Some(values)
  {
    if keys != [] {
      FieldsBegin(keys[1..], values[1..], keys[0][0]);
      FieldIsTaken(keys[0], values[0], Fields(keys[1..], values[1..]));
      FieldsAreTaken(keys[1..], values[1..]);
      OneMoreField(keys, values, Fields(keys, values), Fields(keys[1..], values[1..]));
    }
  }

  lemma OneMoreField(keys: seq<string>, values: seq<string>, s: string, rest: string)
    requires keys != [] && values != [] && TakeField(keys[0], s) == Some(Parsed(values[0], rest))
    requires TakeFields(keys[1..], rest) == Some(values[1..])
    ensures TakeFields(keys, s) == Some(values)
  {
    assert values == [values[0]] + values[1..];
  }

  lemma DigitIsRead(n: nat)
    requires n < 10
    ensures HexValue(Digit(n)) == Some(n) && !Special(Digit(n)) && Digit(n) != '-'
  {
    HexRoundTrip(n);
  }

  lemma LastDigit(high: string, h: nat, c: char, d: nat)
    requires high != "" && ReadDigits(high) == Some(h) && HexValue(c) == Some(d) && d < 10
    ensures ReadDigits(high + [c]) == Some(10 * h + d)
  {
    assert (high + [c])[..|high|] == high;
  }

  lemma OneDigit(c: char, d: nat)
    requires HexValue(c) == Some(d) && d < 10
    ensures ReadDigits([c]) == Some(d)
  {
  }

  lemma {:induction false} DigitsRoundTrip(n: nat)
    ensures ReadDigits(Digits(n)) == Some(n)
  {
    DigitIsRead(n % 10);
    if n >= 10 {
      DigitsRoundTrip(n / 10);
      LastDigit(Digits(n / 10), n / 10, Digit(n % 10), n % 10);
    } else {
      OneDigit(Digit(n), n);
    }
  }

  lemma {:induction false} DigitsArePlain(n: nat)
    ensures Plain(Digits(n)) && Digits(n)[0] != '-'
  {
    DigitIsRead(n % 10);
    if n >= 10 {
      DigitsArePlain(n / 10);
    }
  }

  lemma DecimalIsPlain(n: int)
    ensures Plain(Decimal(n))
  {
    DigitsArePlain(if n < 0 then -n else n);
  }

  lemma DecimalRoundTrip(n: int)
    ensures ReadDecimal(Decimal(n)) == Some(n)
  {
    var m := if n < 0 then -n else n;
    DigitsRoundTrip(m);
    DigitsArePlain(m);
    assert n < 0 ==> Decimal(n)[1..] == Digits(m);
  }

  lemma TypeRoundTrip(t: EventType)
    ensures ReadType(TypeName(t)) == Some(t) && Plain(TypeName(t))
  {
  }

  lemma LeadIsTaken(lead: string, rest: string)
    ensures TakeLead(lead, lead + rest) == Some(rest)
  {
    assert (lead + rest)[|lead|..] == rest;
  }

  lemma KeysDiffer()
    ensures Distinguishable(KEYS)
  {
  }

  // Reading a line gives back the event it was written for, whatever bytes its
  // fields hold.
  lemma ReadUndoesFormat(e: Event)
    ensures Read(Format(e)) == Some(e)
  {
    var fields := Fields(KEYS, Values(e));
    var name := TypeName(e.eventType) + fields;
    var event := " event=" + name;
    KeysDiffer();
    FieldsBegin(KEYS, Values(e), 'z');
    LeadIsTaken("ts=", Decimal(e.timestamp) + event);
    DecimalRoundTrip(e.timestamp);
    DecimalIsPlain(e.timestamp);
    assert event[0] == ' ';
    WordIsTaken(Decimal(e.timestamp), event);
    LeadIsTaken(" event=", name);
    TypeRoundTrip(e.eventType);
    WordIsTaken(TypeName(e.eventType), fields);
    FieldsAreTaken(KEYS, Values(e));
  }

  // So two different events never give the same line.
  lemma FormatIsInjective(a: Event, b: Event)
    ensures Format(a) == Format(b) <==> a == b
  {
    ReadUndoesFormat(a);
    ReadUndoesFormat(b);
  }

  // ---- A line is one line ----

  predicate OneLine(s: string) {
    forall i :: 0 <= i < |s| ==> !Control(s[i])
  }

  lemma {:induction false} EscapedHasNoControl(v: string)
    ensures OneLine(EscapeAll(v))
  {
    if v != "" {
      EscapedHasNoControl(v[1..]);
      assert OneLine(Escape(v[0]));
    }
  }

  lemma {:induction false} FieldsHaveNoControl(keys: seq<string>, values: seq<string>)
    requires |keys| == |values| && forall i :: 0 <= i < |keys| ==> OneLine(keys[i])
    ensures OneLine(Fields(keys, values))
  {
    if keys != [] {
      FieldsHaveNoControl(keys[1..], values[1..]);
      FieldHasNoControl(keys[0], values[0]);
    }
  }

  lemma FieldHasNoControl(key: string, value: string)
    requires OneLine(key)
    ensures OneLine(Field(key, value))
  {
    EscapedHasNoControl(value);
    assert OneLine(Quoted(value));
  }

  // No byte below 0x20 and no 0x7f reaches the log.
  lemma LineHasNoControl(e: Event)
    ensures OneLine(Format(e))
  {
    FieldsHaveNoControl(KEYS, Values(e));
    TypeRoundTrip(e.eventType);
    DecimalIsPlain(e.timestamp);
    var fields := Fields(KEYS, Values(e));
    Joined(TypeName(e.eventType), fields);
    Joined(" event=", TypeName(e.eventType) + fields);
    Joined(Decimal(e.timestamp), " event=" + (TypeName(e.eventType) + fields));
    Joined("ts=", Decimal(e.timestamp) + (" event=" + (TypeName(e.eventType) + fields)));
  }

  lemma Joined(a: string, b: string)
    requires OneLine(a) && OneLine(b)
    ensures OneLine(a + b)
  {
  }

  // ---- The loops ----

  method NeedsQuoting(v: string) returns (needed: bool)
    ensures needed == !Plain(v)
  {
    if v == "" {
      return true;
    }
    for i := 0 to |v|
      invariant forall j :: 0 <= j < i ==> !Special(v[j])
    {
      if Special(v[i]) {
        return true;
      }
    }
    return false;
  }

  method AppendEscaped(buffer: string, c: char) returns (out: string)
    ensures out == buffer + Escape(c)
  {
    if c == '"' || c == '\\' {
      out := buffer + ['\\', c];
    } else if c == '\r' {
      out := buffer + ['\\', 'r'];
    } else if c == '\n' {
      out := buffer + ['\\', 'n'];
    } else if c == '\t' {
      out := buffer + ['\\', 't'];
    } else if Control(c) {
      out := buffer + ['\\', 'x', HEX[c as int / 16], HEX[c as int % 16]];
    } else {
      out := buffer + [c];
    }
  }

  method MaybeQuote(v: string) returns (out: string)
    ensures out == Quoted(v)
  {
    var needed := NeedsQuoting(v);
    if !needed {
      return v;
    }
    out := "\"";
    for i := 0 to |v|
      invariant out + EscapeAll(v[i..]) == "\"" + EscapeAll(v)
    {
      assert v[i..][1..] == v[i + 1..];
      Regroup(out, Escape(v[i]), EscapeAll(v[i + 1..]));
      out := AppendEscaped(out, v[i]);
    }
    out := out + "\"";
  }

  // The line so far, with the fields from the i-th on still to come.
  function Completed(os: string, e: Event, i: nat): string
    requires i <= 6
  {
    os + Fields(KEYS[i..], Values(e)[i..])
  }

  lemma NextField(os: string, longer: string, e: Event, i: nat, key: string, value: string)
    requires i < 6 && key == KEYS[i] && value == Values(e)[i] && longer == os + Field(key, value)
    ensures Completed(longer, e, i + 1) == Completed(os, e, i)
  {
    assert KEYS[i..][1..] == KEYS[i + 1..] && Values(e)[i..][1..] == Values(e)[i + 1..];
    Regroup(os, Field(key, value), Fields(KEYS[i + 1..], Values(e)[i + 1..]));
  }

  lemma Begun(e: Event)
    ensures Completed("ts=" + (Decimal(e.timestamp) + (" event=" + TypeName(e.eventType))), e, 0) == Format(e)
  {
    assert KEYS[0..] == KEYS && Values(e)[0..] == Values(e);
    var fields := Fields(KEYS, Values(e));
    Regroup(" event=", TypeName(e.eventType), fields);
    Regroup(Decimal(e.timestamp), " event=" + TypeName(e.eventType), fields);
    Regroup("ts=", Decimal(e.timestamp) + (" event=" + TypeName(e.eventType)), fields);
  }

  lemma Ended(os: string, e: Event)
    ensures Completed(os, e, 6) == os
  {
  }

  method AppendField(os: string, key: string, value: string, ghost e: Event, ghost i: nat) returns (out: string)
    requires i < 6 && key == KEYS[i] && value == Values(e)[i]
    ensures out == os + Field(key, value) && Completed(out, e, i + 1) == Completed(os, e, i)
  {
    out := os;
    if value != "" {
      var quoted := MaybeQuote(value);
      out := os + (" " + key + "=" + quoted);
    }
    NextField(os, out, e, i, key, value);
  }

  lemma FieldsInOrder(e: Event)
    ensures KEYS[0] == "sub" && KEYS[1] == "iss" && KEYS[2] == "kid"
    ensures KEYS[3] == "action" && KEYS[4] == "reason" && KEYS[5] == "token"
    ensures Values(e)[0] == e.subject && Values(e)[1] == e.issuer && Values(e)[2] == e.kid
    ensures Values(e)[3] == e.action && Values(e)[4] == e.reason && Values(e)[5] == e.tokenHash
  {
  }

  // Whose token it is.
  method AppendToken(os: string, ghost e: Event, subject: string, issuer: string, kid: string) returns (out: string)
    requires subject == e.subject && issuer == e.issuer && kid == e.kid
    ensures Completed(out, e, 3) == Completed(os, e, 0)
  {
    FieldsInOrder(e);
    out := AppendField(os, "sub", subject, e, 0);
    out := AppendField(out, "iss", issuer, e, 1);
    out := AppendField(out, "kid", kid, e, 2);
  }

  // What came of it.
  method AppendOutcome(os: string, ghost e: Event, action: string, reason: string, hash: string) returns (out: string)
    requires action == e.action && reason == e.reason && hash == e.tokenHash
    ensures Completed(out, e, 6) == Completed(os, e, 3)
  {
    FieldsInOrder(e);
    out := AppendField(os, "action", action, e, 3);
    out := AppendField(out, "reason", reason, e, 4);
    out := AppendField(out, "token", hash, e, 5);
  }

  method FormatAuditLine(e: Event) returns (line: string)
    ensures line == Format(e)
  {
    line := "ts=" + (Decimal(e.timestamp) + (" event=" + TypeName(e.eventType)));
    Begun(e);
    line := AppendToken(line, e, e.subject, e.issuer, e.kid);
    line := AppendOutcome(line, e, e.action, e.reason, e.tokenHash);
    Ended(line, e);
  }
}
