/**
 Reading JSON text: tokens, then a value. It knows objects, arrays, strings, natural numbers and
 `true`, which is all that a backup manifest holds, and refuses everything else.
 */
module Json {
  import opened Common
  import opened Text

  // ---------------------------------------------------------------- characters

  predicate IsDecimal(c: char) { '0' <= c <= '9' }

  predicate IsBlank(c: char) { c == ' ' || c == '\n' || c == '\r' || c == '\t' }

  predicate IsMark(c: char) { c == '{' || c == '}' || c == '[' || c == ']' || c == ':' || c == ',' }

  /** The leading decimal digits. */
  function DigitRun(s: string): (r: string)
    ensures r <= s && AllDecimal(r)
  {
    if s == "" || !IsDecimal(s[0]) then "" else [s[0]] + DigitRun(s[1..])
  }

  predicate AllDecimal(s: string) { forall i :: 0 <= i < |s| ==> IsDecimal(s[i]) }

  function DecValue(s: string): nat
    requires AllDecimal(s)
  {
    if s == "" then 0
    else
      assert IsDecimal(s[|s| - 1]);
      10 * DecValue(s[..|s| - 1]) + (s[|s| - 1] as int - 48)
  }

  /** The character of code n, when it is one. */
  function CharOf(n: nat): Option<char> {
    if n < 0xD800 || 0xE000 <= n < 0x11_0000 then Some(n as char) else None
  }

  /** The character a string shows next, and how much text it takes. */
  function Unescaped(s: string): Option<(char, nat)> {
    if s == "" || s[0] < ' ' || s[0] == '"' then None
    else if s[0] != '\\' then Some((s[0], 1))
    else if |s| < 2 then None
    else if s[1] == '"' || s[1] == '\\' || s[1] == '/' then Some((s[1], 2))
    else if s[1] == 'n' then Some(('\n', 2))
    else if s[1] == 'r' then Some(('\r', 2))
    else if s[1] == 't' then Some(('\t', 2))
    else if s[1] == 'u' && |s| >= 6 && IsHex(s[2..6]) then
      match CharOf(HexValue(s[2..6]))
      case Some(c) => Some((c, 6))
      case None => None
    else None
  }

  /** The string whose opening quote has been read, and the text after its closing quote. */
  function ReadString(s: string): (r: Option<(string, string)>)
    ensures r.Some? ==> |r.value.1| < |s|
    decreases |s|
  {
    if s != "" && s[0] == '"' then Some(("", s[1..]))
    else
      match Unescaped(s)
      case None => None
      case Some((c, n)) =>
        if n == 0 || n > |s| then None
        else
          match ReadString(s[n..])
          case None => None
          case Some((text, rest)) => Some(([c] + text, rest))
  }

  // -------------------------------------------------------------------- tokens

  datatype Token = Mark(c: char) | Quote(text: string) | Number(n: nat) | Yes

  function Prepend(t: Token, rest: Option<seq<Token>>): Option<seq<Token>> {
    if rest.None? then None else Some([t] + rest.value)
  }

  /** The tokens of a text; None when it holds something else. */
  function Lex(s: string): Option<seq<Token>>
    decreases |s|
  {
    if s == "" then Some([])
    else if IsBlank(s[0]) then Lex(s[1..])
    else if IsMark(s[0]) then Prepend(Mark(s[0]), Lex(s[1..]))
    else if IsDecimal(s[0]) then LexNumber(s)
    else if s[0] == '"' then
      match ReadString(s[1..])
      case None => None
      case Some((text, rest)) => Prepend(Quote(text), Lex(rest))
    else if "true" <= s then Prepend(Yes, Lex(s[4..]))
    else None
  }

  /** A number has no leading zero. */
  function LexNumber(s: string): Option<seq<Token>>
    requires s != "" && IsDecimal(s[0])
    decreases |s|, 0
  {
    var run := DigitRun(s);
    if |run| > 1 && run[0] == '0' then None else Prepend(Number(DecValue(run)), Lex(s[|run|..]))
  }

  /** The tokens of a text followed by those of another. */
  function Joined(a: Option<seq<Token>>, b: Option<seq<Token>>): Option<seq<Token>> {
    if a.None? || b.None? then None else Some(a.value + b.value)
  }

  lemma {:induction false} PrependJoined(t: Token, a: Option<seq<Token>>, b: Option<seq<Token>>)
    ensures Prepend(t, Joined(a, b)) == Joined(Prepend(t, a), b)
  {
    if a.Some? && b.Some? {
      assert [t] + (a.value + b.value) == ([t] + a.value) + b.value;
    }
  }

  lemma {:induction false} DigitRunConcat(a: string, b: string)
    requires b == "" || !IsDecimal(b[0]) || (a != "" && !IsDecimal(a[|a| - 1]))
    ensures DigitRun(a + b) == DigitRun(a)
    decreases |a|
  {
    if a == "" {
      assert a + b == b;
    } else {
      assert (a + b)[1..] == a[1..] + b;
      if IsDecimal(a[0]) {
        DigitRunConcat(a[1..], b);
      }
    }
  }

  /** The two texts do not run into each other. */
  predicate Apart(a: string, b: string) {
    a == "" || b == "" || !IsDecimal(a[|a| - 1]) || !IsDecimal(b[0])
  }

  /** Texts that do not run into each other are read one after the other. */
  lemma {:induction false} LexConcat(a: string, b: string)
    requires Lex(a).Some? && '"' !in a && Apart(a, b)
    ensures Lex(a + b) == Joined(Lex(a), Lex(b))
    decreases |a|
  {
    var s := a + b;
    if a == "" {
      assert s == b;
      assert Lex(b).Some? ==> [] + Lex(b).value == Lex(b).value;
    } else if IsBlank(a[0]) {
      assert s[1..] == a[1..] + b;
      LexConcat(a[1..], b);
    } else if IsMark(a[0]) {
      assert s[1..] == a[1..] + b;
      LexConcat(a[1..], b);
      PrependJoined(Mark(a[0]), Lex(a[1..]), Lex(b));
    } else if IsDecimal(a[0]) {
      LexNumberConcat(a, b);
    } else {
      assert "true" <= a && s[4..] == a[4..] + b && "true" <= s;
      LexConcat(a[4..], b);
      PrependJoined(Yes, Lex(a[4..]), Lex(b));
    }
  }

  lemma {:induction false} LexNumberConcat(a: string, b: string)
    requires a != "" && IsDecimal(a[0]) && Lex(a).Some? && '"' !in a && Apart(a, b)
    ensures Lex(a + b) == Joined(Lex(a), Lex(b))
    decreases |a|, 0
  {
    var s, run := a + b, DigitRun(a);
    DigitRunConcat(a, b);
    assert s[|run|..] == a[|run|..] + b;
    LexConcat(a[|run|..], b);
    PrependJoined(Number(DecValue(run)), Lex(a[|run|..]), Lex(b));
  }

  /** Punctuation and blanks. */
  lemma {:induction false} LexMark(c: char, s: string)
    ensures IsMark(c) ==> Lex([c] + s) == Prepend(Mark(c), Lex(s))
    ensures IsBlank(c) ==> Lex([c] + s) == Lex(s)
  {
    assert ([c] + s)[1..] == s;
  }

  lemma {:induction false} LexOne(c: char)
    requires IsMark(c) || IsBlank(c)
    ensures Lex([c]) == Some(if IsMark(c) then [Mark(c)] else [])
  {
    var none: seq<Token> := [];
    assert Lex("") == Some(none);
    LexMark(c, "");
    assert [c] + "" == [c];
    assert [Mark(c)] + none == [Mark(c)];
  }

  predicate OnlyMarks(s: string) { forall i :: 0 <= i < |s| ==> IsMark(s[i]) || IsBlank(s[i]) }

  function Marks(s: string): seq<Token> {
    if s == "" then [] else Marks(s[..|s| - 1]) + (if IsMark(s[|s| - 1]) then [Mark(s[|s| - 1])] else [])
  }

  lemma {:induction false} LexMarks(s: string)
    requires OnlyMarks(s)
    ensures Lex(s) == Some(Marks(s))
  {
    if s != "" {
      var n := |s| - 1;
      LexMarks(s[..n]);
      assert s == s[..n] + [s[n]];
      LexOne(s[n]);
      LexConcat(s[..n], [s[n]]);
    }
  }

  lemma {:induction false} LexQuote(quoted: string, text: string, rest: string)
    requires ReadString(quoted + "\"" + rest) == Some((text, rest))
    ensures Lex("\"" + quoted + "\"" + rest) == Prepend(Quote(text), Lex(rest))
  {
    var s := "\"" + quoted + "\"" + rest;
    assert s[1..] == quoted + "\"" + rest;
  }

  // -------------------------------------------------------------------- values

  datatype Value = Str(text: string) | Num(n: nat) | True | Arr(items: Items) | Obj(members: Members)

  datatype Items = NoItem | Item(value: Value, rest: Items)

  datatype Members = NoMember | Member(name: string, value: Value, rest: Members)

  datatype Parsed<T> = Bad | Good(value: T, rest: seq<Token>)

  function ParseValue(t: seq<Token>): (r: Parsed<Value>)
    ensures r.Good? ==> |r.rest| < |t|
    decreases |t|, 0
  {
    if t == [] then Bad
    else
      match t[0]
      case Quote(s) => Good(Str(s), t[1..])
      case Number(n) => Good(Num(n), t[1..])
      case Yes => Good(True, t[1..])
      case Mark(c) =>
        if c == '[' then
          if |t| > 1 && t[1] == Mark(']') then Good(Arr(NoItem), t[2..])
          else
            match ParseItems(t[1..])
            case Bad => Bad
            case Good(items, rest) => Good(Arr(items), rest)
        else if c == '{' then
          if |t| > 1 && t[1] == Mark('}') then Good(Obj(NoMember), t[2..])
          else
            match ParseMembers(t[1..])
            case Bad => Bad
            case Good(members, rest) => Good(Obj(members), rest)
        else Bad
  }

  /** One item or more, and the closing bracket. */
  function ParseItems(t: seq<Token>): (r: Parsed<Items>)
    ensures r.Good? ==> |r.rest| < |t|
    decreases |t|, 1
  {
    match ParseValue(t)
    case Bad => Bad
    case Good(v, rest) =>
      if rest == [] then Bad
      else if rest[0] == Mark(']') then Good(Item(v, NoItem), rest[1..])
      else if rest[0] == Mark(',') then
        match ParseItems(rest[1..])
        case Bad => Bad
        case Good(items, end) => Good(Item(v, items), end)
      else Bad
  }

  /** One member or more, and the closing brace. */
  function ParseMembers(t: seq<Token>): (r: Parsed<Members>)
    ensures r.Good? ==> |r.rest| < |t|
    decreases |t|, 1
  {
    if |t| < 2 || !t[0].Quote? || t[1] != Mark(':') then Bad
    else
      match ParseValue(t[2..])
      case Bad => Bad
      case Good(v, rest) =>
        if rest == [] then Bad
        else if rest[0] == Mark('}') then Good(Member(t[0].text, v, NoMember), rest[1..])
        else if rest[0] == Mark(',') then
          match ParseMembers(rest[1..])
          case Bad => Bad
          case Good(members, end) => Good(Member(t[0].text, v, members), end)
        else Bad
  }

  /** The value that a whole text stands for. */
  function Read(text: string): Option<Value> {
    match Lex(text)
    case None => None
    case Some(t) =>
      match ParseValue(t)
      case Bad => None
      case Good(v, rest) => if rest == [] then Some(v) else None
  }

  // ------------------------------------------------------ the tokens of a value

  function Tokens(v: Value): seq<Token> {
    match v
    case Str(s) => [Quote(s)]
    case Num(n) => [Number(n)]
    case True => [Yes]
    case Arr(items) => [Mark('[')] + (if items.NoItem? then [Mark(']')] else ItemTokens(items))
    case Obj(members) => [Mark('{')] + (if members.NoMember? then [Mark('}')] else MemberTokens(members))
  }

  function ItemTokens(items: Items): seq<Token>
    requires items.Item?
  {
    Tokens(items.value) + if items.rest.NoItem? then [Mark(']')] else [Mark(',')] + ItemTokens(items.rest)
  }

  function MemberTokens(members: Members): seq<Token>
    requires members.Member?
  {
    [Quote(members.name), Mark(':')] + Tokens(members.value) +
    if members.rest.NoMember? then [Mark('}')] else [Mark(',')] + MemberTokens(members.rest)
  }

  /** Reading the tokens of a value gives it back, whatever follows. */
  lemma {:induction false} ParseInverts(v: Value, rest: seq<Token>)
    ensures ParseValue(Tokens(v) + rest) == Good(v, rest)
    decreases v, 0
  {
    var t := Tokens(v) + rest;
    match v
    case Str(s) => assert t[1..] == rest;
    case Num(n) => assert t[1..] == rest;
    case True => assert t[1..] == rest;
    case Arr(items) =>
      if items.NoItem? {
        assert t[2..] == rest;
      } else {
        FirstToken(items.value);
        assert t[1..] == ItemTokens(items) + rest;
        ItemsInvert(items, rest);
      }
    case Obj(members) =>
      if members.NoMember? {
        assert t[2..] == rest;
      } else {
        assert t[1..] == MemberTokens(members) + rest;
        MembersInvert(members, rest);
      }
  }

  lemma {:induction false} FirstToken(v: Value)
    ensures Tokens(v) != [] && Tokens(v)[0] != Mark(']')
  {
  }

  /** An item, then a bracket or a comma. */
  lemma {:induction false} ItemsStep(t: seq<Token>, v: Value, u: seq<Token>)
    ensures ParseValue(t) == Good(v, [Mark(']')] + u) ==> ParseItems(t) == Good(Item(v, NoItem), u)
    ensures forall items, end :: ParseValue(t) == Good(v, [Mark(',')] + u) && ParseItems(u) == Good(items, end) ==>
              ParseItems(t) == Good(Item(v, items), end)
  {
    assert ([Mark(']')] + u)[1..] == u && ([Mark(',')] + u)[1..] == u;
  }

  lemma {:induction false} ItemsInvert(items: Items, rest: seq<Token>)
    requires items.Item?
    ensures ParseItems(ItemTokens(items) + rest) == Good(items, rest)
    decreases items, 1
  {
    var t, u := ItemTokens(items) + rest, if items.rest.NoItem? then rest else ItemTokens(items.rest) + rest;
    var after := [Mark(if items.rest.NoItem? then ']' else ',')] + u;
    assert t == Tokens(items.value) + after;
    ParseInverts(items.value, after);
    if items.rest.Item? {
      ItemsInvert(items.rest, rest);
    }
    ItemsStep(t, items.value, u);
  }

  /** A member, then a brace or a comma. */
  lemma {:induction false} MembersStep(name: string, t: seq<Token>, v: Value, u: seq<Token>)
    ensures ParseValue(t) == Good(v, [Mark('}')] + u) ==>
              ParseMembers([Quote(name), Mark(':')] + t) == Good(Member(name, v, NoMember), u)
    ensures forall members, end :: ParseValue(t) == Good(v, [Mark(',')] + u) && ParseMembers(u) == Good(members, end) ==>
              ParseMembers([Quote(name), Mark(':')] + t) == Good(Member(name, v, members), end)
  {
    assert ([Quote(name), Mark(':')] + t)[2..] == t;
    assert ([Mark('}')] + u)[1..] == u && ([Mark(',')] + u)[1..] == u;
  }

  lemma {:induction false} MembersInvert(members: Members, rest: seq<Token>)
    requires members.Member?
    ensures ParseMembers(MemberTokens(members) + rest) == Good(members, rest)
    decreases members, 1
  {
    var u := if members.rest.NoMember? then rest else MemberTokens(members.rest) + rest;
    var after := [Mark(if members.rest.NoMember? then '}' else ',')] + u;
    var t := Tokens(members.value) + after;
    assert MemberTokens(members) + rest == [Quote(members.name), Mark(':')] + t;
    ParseInverts(members.value, after);
    if members.rest.Member? {
      MembersInvert(members.rest, rest);
    }
    MembersStep(members.name, t, members.value, u);
  }

  /** A text whose tokens are a value's stands for that value. */
  lemma {:induction false} ReadTokens(text: string, v: Value)
    requires Lex(text) == Some(Tokens(v))
    ensures Read(text) == Some(v)
  {
    assert Tokens(v) + [] == Tokens(v);
    ParseInverts(v, []);
  }

  // -------------------------------------------------------------------- looking

  /** The value of the member called name. */
  function Get(members: Members, name: string): Option<Value> {
    match members
    case NoMember => None
    case Member(n, v, rest) => if n == name then Some(v) else Get(rest, name)
  }

  function GetText(members: Members, name: string): Option<string> {
    match Get(members, name)
    case Some(Str(s)) => Some(s)
    case _ => None
  }

  function GetNumber(members: Members, name: string): Option<nat> {
    match Get(members, name)
    case Some(Num(n)) => Some(n)
    case _ => None
  }
}
