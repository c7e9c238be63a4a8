/**
 The line protocol: parsing one line into a command and printing replies.

 A line is a sequence of bytes, each byte written as a character. Verbs are
 upper-cased as ASCII.
 */
module Protocol {
  import opened Wrappers

  datatype Command = Get(key: string) | Set(key: string, value: string) | Del(key: string)

  datatype ParseError =
    | EmptyCommand
    | OneKey(verb: string)
    | KeyAndValue
    | Unknown(verb: string)

  // ----- character classes and trimming -----

  predicate IsEol(c: char) {
    c == '\r' || c == '\n'
  }

  predicate IsSpace(c: char) {
    c == ' ' || '\t' <= c <= '\r'
  }

  /** strings.TrimRight(line, "\r\n") */
  function TrimEol(line: string): (r: string)
    ensures r <= line
    ensures r == [] || !IsEol(r[|r| - 1])
    ensures forall i :: |r| <= i < |line| ==> IsEol(line[i])
  {
    if line != [] && IsEol(line[|line| - 1]) then TrimEol(line[..|line| - 1]) else line
  }

  /** strings.TrimSpace(line) == "" */
  predicate IsBlank(line: string) {
    forall i :: 0 <= i < |line| ==> IsSpace(line[i])
  }

  function UpperChar(c: char): char {
    if 'a' <= c <= 'z' then c - 'a' + 'A' else c
  }

  function ToUpper(s: string): (r: string)
    ensures |r| == |s|
  {
    seq(|s|, i requires 0 <= i < |s| => UpperChar(s[i]))
  }

  /** The length of the longest prefix without a space. */
  function WordLength(s: string): (n: nat)
    ensures n <= |s|
    ensures forall i :: 0 <= i < n ==> s[i] != ' '
    ensures n < |s| ==> s[n] == ' '
  {
    if s == [] || s[0] == ' ' then 0 else 1 + WordLength(s[1..])
  }

  /** strings.SplitN(s, " ", n) */
  function SplitN(s: string, n: nat): (parts: seq<string>)
    requires n > 0
    ensures 1 <= |parts| <= n
  {
    var k := WordLength(s);
    if n == 1 || k == |s| then [s] else [s[..k]] + SplitN(s[k + 1..], n - 1)
  }

  /** The switch on the verb, over the parts of a line that is not blank. */
  function Dispatch(parts: seq<string>): Result<Command, ParseError>
    requires parts != []
  {
    var verb := ToUpper(parts[0]);
    if verb == "GET" || verb == "DEL" then
      if |parts| != 2 || parts[1] == "" then Err(OneKey(verb))
      else if verb == "DEL" then Ok(Del(parts[1])) else Ok(Get(parts[1]))
    else if verb == "SET" then
      if |parts| != 3 || parts[1] == "" then Err(KeyAndValue)
      else Ok(Set(parts[1], parts[2]))
    else
      Err(Unknown(parts[0]))
  }

  function Parse(input: string): Result<Command, ParseError> {
    var line := TrimEol(input);
    if IsBlank(line) then Err(EmptyCommand) else Dispatch(SplitN(line, 3))
  }

  // ----- printing -----

  /** A command as the clients print it, without the terminator. */
  function Print(cmd: Command): string {
    match cmd
    case Get(k) => "GET " + k
    case Set(k, v) => "SET " + k + " " + v
    case Del(k) => "DEL " + k
  }

  function HexDigit(n: nat): char
    requires n < 16
  {
    "0123456789abcdef"[n]
  }

  /** One character of the %q verb. Bytes from 0x80 up are taken as printable. */
  function QuoteChar(c: char): string {
    if c == '"' then "\\\""
    else if c == '\\' then "\\\\"
    else if c == '\n' then "\\n"
    else if c == '\r' then "\\r"
    else if c == '\t' then "\\t"
    else if c == 7 as char then "\\a"
    else if c == 8 as char then "\\b"
    else if c == 12 as char then "\\f"
    else if c == 11 as char then "\\v"
    else if c < ' ' || c == 127 as char then "\\x" + [HexDigit(c as int / 16), HexDigit(c as int % 16)]
    else [c]
  }

  function QuoteBody(s: string): string {
    if s == [] then "" else QuoteChar(s[0]) + QuoteBody(s[1..])
  }

  function ErrorText(e: ParseError): string {
    match e
    case EmptyCommand => "empty command"
    case OneKey(verb) => verb + " takes exactly one key"
    case KeyAndValue => "SET takes a key and a value"
    case Unknown(verb) => "unknown command \"" + QuoteBody(verb) + "\""
  }

  function ReplyValue(v: string): string { v + "\n" }

  function ReplyNil(): string { "(nil)\n" }

  function ReplyOK(): string { "OK\n" }

  /** The server prints only 0 and 1. */
  function ReplyBit(present: bool): string { if present then "1\n" else "0\n" }

  function ReplyError(e: ParseError): string { "ERR " + ErrorText(e) + "\n" }

  // ----- the image of Parse -----

  predicate NoSpace(s: string) {
    forall i :: 0 <= i < |s| ==> s[i] != ' '
  }

  predicate NoLf(s: string) {
    forall i :: 0 <= i < |s| ==> s[i] != '\n'
  }

  predicate EndsInEol(s: string) {
    s != [] && IsEol(s[|s| - 1])
  }

  /** The commands that some line parses to. */
  predicate Canonical(cmd: Command) {
    && cmd.key != []
    && NoSpace(cmd.key)
    && !EndsInEol(if cmd.Set? then cmd.value else cmd.key)
  }

  lemma WordLengthAt(s: string, n: nat)
    requires n <= |s| && NoSpace(s[..n])
    requires n == |s| || s[n] == ' '
    ensures WordLength(s) == n
  {
    assert forall i :: 0 <= i < n ==> s[i] == s[..n][i];
  }

  lemma TrimEolKeeps(s: string)
    requires !EndsInEol(s)
    ensures TrimEol(s) == s
  {
  }

  function Join(parts: seq<string>): string {
    if |parts| == 0 then "" else if |parts| == 1 then parts[0] else parts[0] + " " + Join(parts[1..])
  }

  lemma JoinCons(word: string, rest: seq<string>)
    requires rest != []
    ensures Join([word] + rest) == word + " " + Join(rest)
  {
    assert ([word] + rest)[1..] == rest;
  }

  /** Joining the parts with single spaces is the inverse of splitting. */
  lemma {:induction false} JoinSplit(s: string, n: nat)
    requires n > 0
    ensures Join(SplitN(s, n)) == s
  {
    var k := WordLength(s);
    if n == 1 || k == |s| {
      assert SplitN(s, n) == [s];
    } else {
      var rest := SplitN(s[k + 1..], n - 1);
      JoinSplit(s[k + 1..], n - 1);
      JoinHead(s, k, rest);
    }
  }

  lemma JoinHead(s: string, k: nat, rest: seq<string>)
    requires k < |s| && s[k] == ' ' && rest != [] && Join(rest) == s[k + 1..]
    ensures Join([s[..k]] + rest) == s
  {
    JoinCons(s[..k], rest);
    assert s == s[..k] + " " + s[k + 1..];
  }

  /** Every part but the n-th is free of spaces. */
  lemma {:induction false} SplitWords(s: string, n: nat, i: nat)
    requires i < n - 1 && i < |SplitN(s, n)|
    ensures NoSpace(SplitN(s, n)[i])
  {
    var k := WordLength(s);
    if k < |s| && i > 0 { SplitWords(s[k + 1..], n - 1, i - 1); }
  }

  lemma SplitKey(verb: string, key: string)
    requires NoSpace(verb) && NoSpace(key)
    ensures SplitN(verb + " " + key, 3) == [verb, key]
  {
    var s := verb + " " + key;
    assert s[..|verb|] == verb && s[|verb| + 1..] == key;
    WordLengthAt(s, |verb|);
    WordLengthAt(key, |key|) by { assert key[..|key|] == key; }
    assert SplitN(s, 3) == [verb] + SplitN(key, 2);
  }

  lemma SplitKeyValue(verb: string, key: string, value: string)
    requires NoSpace(verb) && NoSpace(key)
    ensures SplitN(verb + " " + key + " " + value, 3) == [verb, key, value]
  {
    var s := verb + " " + key + " " + value;
    var rest := key + " " + value;
    assert s[..|verb|] == verb && s[|verb| + 1..] == rest;
    assert rest[..|key|] == key && rest[|key| + 1..] == value;
    WordLengthAt(s, |verb|);
    WordLengthAt(rest, |key|);
    assert SplitN(rest, 2) == [key] + SplitN(value, 1);
    assert SplitN(s, 3) == [verb] + SplitN(rest, 2);
  }

  function Verb(cmd: Command): string {
    match cmd
    case Get(_) => "GET"
    case Set(_, _) => "SET"
    case Del(_) => "DEL"
  }

  function Operands(cmd: Command): string {
    if cmd.Set? then cmd.key + " " + cmd.value else cmd.key
  }

  lemma PrintShape(cmd: Command)
    ensures Print(cmd) == Verb(cmd) + " " + Operands(cmd)
  {
  }

  /** The line is the printed command, except that its verb may be in any case. */
  predicate Spells(line: string, cmd: Command) {
    && cmd.key != [] && NoSpace(cmd.key)
    && |line| >= 3 && ToUpper(line[..3]) + line[3..] == Print(cmd)
  }

  lemma SpellsParts(line: string, cmd: Command)
    requires Spells(line, cmd)
    ensures ToUpper(line[..3]) == Verb(cmd) && line == line[..3] + " " + Operands(cmd)
  {
    PrintShape(cmd);
    var printed := Print(cmd);
    assert printed[..3] == Verb(cmd) && printed[3..] == " " + Operands(cmd);
    assert (ToUpper(line[..3]) + line[3..])[..3] == ToUpper(line[..3]);
    assert (ToUpper(line[..3]) + line[3..])[3..] == line[3..];
  }

  lemma VerbHasNoSpace(verb: string, cmd: Command)
    requires ToUpper(verb) == Verb(cmd)
    ensures NoSpace(verb) && |verb| == 3 && !IsSpace(verb[0])
  {
    forall i | 0 <= i < |verb| ensures !IsSpace(verb[i]) {
      assert ToUpper(verb)[i] == UpperChar(verb[i]) && 'A' <= Verb(cmd)[i] <= 'Z';
    }
  }

  function Parts(verb: string, cmd: Command): seq<string> {
    if cmd.Set? then [verb, cmd.key, cmd.value] else [verb, cmd.key]
  }

  lemma DispatchExactly(parts: seq<string>, cmd: Command)
    requires parts != []
    ensures Dispatch(parts) == Ok(cmd) <==>
            ToUpper(parts[0]) == Verb(cmd) && cmd.key != [] && parts == Parts(parts[0], cmd)
  {
  }

  lemma SpellsParses(line: string, cmd: Command)
    requires Spells(TrimEol(line), cmd)
    ensures Parse(line) == Ok(cmd)
  {
    var t := TrimEol(line);
    var verb := t[..3];
    SpellsParts(t, cmd);
    VerbHasNoSpace(verb, cmd);
    assert !IsSpace(t[0]);
    DispatchExactly(Parts(verb, cmd), cmd);
    if cmd.Set? {
      SplitKeyValue(verb, cmd.key, cmd.value);
      assert t == verb + " " + cmd.key + " " + cmd.value;
    } else {
      SplitKey(verb, cmd.key);
    }
  }

  lemma JoinedSpells(verb: string, cmd: Command)
    requires ToUpper(verb) == Verb(cmd) && cmd.key != [] && NoSpace(cmd.key)
    ensures Spells(verb + " " + Operands(cmd), cmd)
  {
    var line := verb + " " + Operands(cmd);
    PrintShape(cmd);
    assert line[..3] == verb && line[3..] == " " + Operands(cmd);
  }

  lemma PartsSpell(parts: seq<string>, cmd: Command)
    requires parts != [] && Dispatch(parts) == Ok(cmd)
    requires forall i :: 0 <= i < |parts| && i < 2 ==> NoSpace(parts[i])
    ensures Spells(Join(parts), cmd)
  {
    DispatchExactly(parts, cmd);
    assert NoSpace(parts[1]);
    JoinedSpells(parts[0], cmd);
    assert Join(parts[1..]) == Operands(cmd);
  }

  lemma ParsesSpells(line: string, cmd: Command)
    requires Parse(line) == Ok(cmd)
    ensures Spells(TrimEol(line), cmd)
  {
    var t := TrimEol(line);
    JoinSplit(t, 3);
    forall i | 0 <= i < |SplitN(t, 3)| && i < 2 ensures NoSpace(SplitN(t, 3)[i]) {
      SplitWords(t, 3, i);
    }
    PartsSpell(SplitN(t, 3), cmd);
  }

  /** A line parses to a command exactly when, trimmed, it spells that command. */
  lemma ParseExactly(line: string, cmd: Command)
    ensures Parse(line) == Ok(cmd) <==> Spells(TrimEol(line), cmd)
  {
    if Parse(line) == Ok(cmd) { ParsesSpells(line, cmd); }
    if Spells(TrimEol(line), cmd) { SpellsParses(line, cmd); }
  }

  // ----- the same, letter by letter -----

  /** b is a capital letter, and a is that letter in either case. */
  predicate Fold(a: char, b: char) {
    'A' <= b <= 'Z' && (a == b || a as int == b as int + 32)
  }

  predicate FoldsTo(word: string, verb: string) {
    |word| == |verb| && forall i :: 0 <= i < |word| ==> Fold(word[i], verb[i])
  }

  lemma FoldIsUpper(word: string, verb: string)
    requires forall i :: 0 <= i < |verb| ==> 'A' <= verb[i] <= 'Z'
    ensures FoldsTo(word, verb) <==> ToUpper(word) == verb
  {
    if FoldsTo(word, verb) {
      forall i | 0 <= i < |word| ensures ToUpper(word)[i] == verb[i] { assert Fold(word[i], verb[i]); }
    }
    if ToUpper(word) == verb {
      forall i | 0 <= i < |word| ensures Fold(word[i], verb[i]) { assert ToUpper(word)[i] == verb[i]; }
    }
  }

  /** The three letters of a verb in any case, one space, and the operands. */
  predicate SpelledOut(line: string, cmd: Command) {
    && cmd.key != [] && NoSpace(cmd.key)
    && |line| >= 4 && line[3] == ' '
    && match cmd
       case Get(k) => FoldsTo(line[..3], "GET") && line[4..] == k
       case Del(k) => FoldsTo(line[..3], "DEL") && line[4..] == k
       case Set(k, v) => FoldsTo(line[..3], "SET") && line[4..] == k + " " + v
  }

  lemma FoldsToVerb(word: string)
    ensures FoldsTo(word, "GET") <==> ToUpper(word) == "GET"
    ensures FoldsTo(word, "DEL") <==> ToUpper(word) == "DEL"
    ensures FoldsTo(word, "SET") <==> ToUpper(word) == "SET"
  {
    FoldIsUpper(word, "GET");
    FoldIsUpper(word, "DEL");
    FoldIsUpper(word, "SET");
  }

  lemma SpelledSpells(line: string, cmd: Command)
    ensures SpelledOut(line, cmd) <==> Spells(line, cmd)
  {
    if |line| >= 3 { FoldsToVerb(line[..3]); }
    if SpelledOut(line, cmd) {
      assert line == line[..3] + " " + line[4..];
      JoinedSpells(line[..3], cmd);
    }
    if Spells(line, cmd) {
      SpellsParts(line, cmd);
      var verb := line[..3];
      assert line == verb + " " + Operands(cmd);
      assert line[4..] == Operands(cmd);
    }
  }

  /** Exactly the lines that parse to a command, in terms of their letters alone. */
  lemma ParseInLetters(line: string, cmd: Command)
    ensures Parse(line) == Ok(cmd) <==> SpelledOut(TrimEol(line), cmd)
  {
    ParseExactly(line, cmd);
    SpelledSpells(TrimEol(line), cmd);
  }

  /** What parses is canonical. */
  lemma ParseImage(line: string)
    ensures Parse(line).Ok? ==> Canonical(Parse(line).value)
  {
    if Parse(line).Ok? {
      var cmd := Parse(line).value;
      ParsesSpells(line, cmd);
      SpellsParts(TrimEol(line), cmd);
      var t := TrimEol(line);
      var tail := if cmd.Set? then cmd.value else cmd.key;
      assert tail != [] ==> t[|t| - 1] == tail[|tail| - 1];
    }
  }

  lemma UpperVerb(cmd: Command)
    ensures ToUpper(Verb(cmd)) == Verb(cmd)
  {
  }

  /** Printing a canonical command and parsing it gives it back. */
  lemma PrintParse(cmd: Command)
    requires Canonical(cmd)
    ensures Parse(Print(cmd)) == Ok(cmd)
  {
    var line := Print(cmd);
    PrintShape(cmd);
    if cmd.Set? {
      assert line[|line| - 1] == if cmd.value != [] then cmd.value[|cmd.value| - 1] else ' ';
    } else {
      assert line[|line| - 1] == cmd.key[|cmd.key| - 1];
    }
    TrimEolKeeps(line);
    UpperVerb(cmd);
    assert line[..3] == Verb(cmd) && ToUpper(line[..3]) + line[3..] == line;
    SpellsParses(line, cmd);
  }

  /** The image of Parse is exactly the canonical commands. */
  lemma ImageIsCanonical(cmd: Command)
    ensures (exists line :: Parse(line) == Ok(cmd)) <==> Canonical(cmd)
  {
    if line :| Parse(line) == Ok(cmd) { ParseImage(line); }
    if Canonical(cmd) { PrintParse(cmd); }
  }

  /** Parsing is unchanged by printing what was parsed and parsing again. */
  lemma ParsePrintParse(line: string)
    requires Parse(line).Ok?
    ensures Parse(Print(Parse(line).value)) == Parse(line)
  {
    ParseImage(line);
    PrintParse(Parse(line).value);
  }

  lemma TrimEolIgnoresEol(line: string, suffix: string)
    requires forall i :: 0 <= i < |suffix| ==> IsEol(suffix[i])
    ensures TrimEol(line + suffix) == TrimEol(line)
  {
    if suffix == [] {
      assert line + suffix == line;
    } else {
      var s := line + suffix;
      assert s[..|s| - 1] == line + suffix[..|suffix| - 1];
      TrimEolIgnoresEol(line, suffix[..|suffix| - 1]);
    }
  }

  /** Line terminators at the end, however many, never change what a line means. */
  lemma ParseIgnoresEol(line: string, suffix: string)
    requires forall i :: 0 <= i < |suffix| ==> IsEol(suffix[i])
    ensures Parse(line + suffix) == Parse(line)
  {
    TrimEolIgnoresEol(line, suffix);
  }

  function FirstWord(line: string): string {
    line[..WordLength(line)]
  }

  /** Why a line is refused: nothing on it, an unknown verb, or the wrong operands for its verb. */
  lemma ParseErrors(input: string)
    requires Parse(input).Err?
    ensures var line := TrimEol(input);
            var word := FirstWord(line);
            match Parse(input).error
            case EmptyCommand => IsBlank(line)
            case OneKey(verb) => verb == ToUpper(word) && (verb == "GET" || verb == "DEL")
            case KeyAndValue => ToUpper(word) == "SET"
            case Unknown(verb) =>
              verb == word && ToUpper(word) != "GET" && ToUpper(word) != "DEL" && ToUpper(word) != "SET"
    ensures IsBlank(TrimEol(input)) <==> Parse(input).error == EmptyCommand
  {
    var line := TrimEol(input);
    if !IsBlank(line) {
      FirstPart(line);
      DispatchErrors(SplitN(line, 3));
    }
  }

  lemma FirstPart(line: string)
    ensures SplitN(line, 3)[0] == FirstWord(line)
  {
    var k := WordLength(line);
    assert k == |line| ==> line[..k] == line;
  }

  lemma DispatchErrors(parts: seq<string>)
    requires parts != [] && Dispatch(parts).Err?
    ensures var verb := ToUpper(parts[0]);
            match Dispatch(parts).error
            case EmptyCommand => false
            case OneKey(v) => v == verb && (verb == "GET" || verb == "DEL")
            case KeyAndValue => verb == "SET"
            case Unknown(w) => w == parts[0] && verb != "GET" && verb != "DEL" && verb != "SET"
  {
  }

  // ----- the text of a refusal -----

  function HexValue(c: char): (n: nat)
    ensures n < 16
  {
    if '0' <= c <= '9' then c as int - '0' as int
    else if 'a' <= c <= 'f' then c as int - 'a' as int + 10
    else 0
  }

  /** The character that a backslash and c stand for. */
  function Unescape(c: char): char {
    match c
    case 'n' => '\n'
    case 'r' => '\r'
    case 't' => '\t'
    case 'a' => 7 as char
    case 'b' => 8 as char
    case 'f' => 12 as char
    case 'v' => 11 as char
    case _ => c
  }

  /** What a reader of a Go string literal makes of it; a bare quote or control character ends it. */
  function Unquote(s: string): string {
    if s == [] || s[0] == '"' || s[0] < ' ' || s[0] == 127 as char then ""
    else if s[0] != '\\' then [s[0]] + Unquote(s[1..])
    else if |s| >= 4 && s[1] == 'x' then [(16 * HexValue(s[2]) + HexValue(s[3])) as char] + Unquote(s[4..])
    else if |s| >= 2 then [Unescape(s[1])] + Unquote(s[2..])
    else ""
  }

  lemma UnquoteChar(c: char, rest: string)
    ensures Unquote(QuoteChar(c) + rest) == [c] + Unquote(rest)
  {
    var q := QuoteChar(c);
    var s := q + rest;
    assert s[|q|..] == rest && s[0] == q[0];
    if |q| == 2 {
      assert s[1] == q[1];
      EscapeStands(c);
    } else if |q| == 4 {
      assert s[1] == q[1] && s[2] == q[2] && s[3] == q[3];
      HexRoundTrip(c);
    }
  }

  lemma EscapeStands(c: char)
    requires |QuoteChar(c)| == 2
    ensures QuoteChar(c)[0] == '\\' && QuoteChar(c)[1] != 'x' && Unescape(QuoteChar(c)[1]) == c
  {
  }

  lemma HexRoundTrip(c: char)
    requires c < ' ' || c == 127 as char
    ensures 16 * HexValue(HexDigit(c as int / 16)) + HexValue(HexDigit(c as int % 16)) == c as int
  {
  }

  /** Quoting loses nothing: the quoted word reads back as the word. */
  lemma {:induction false} UnquoteQuote(s: string)
    ensures Unquote(QuoteBody(s)) == s
  {
    if s != [] {
      UnquoteQuote(s[1..]);
      UnquoteChar(s[0], QuoteBody(s[1..]));
    }
  }

  /** Space, tab, LF, VT, FF and CR. */
  predicate AllWhite(line: string) {
    forall i :: 0 <= i < |line| ==> line[i] as int == 32 || 9 <= line[i] as int <= 13
  }

  /** What a refused line is told, word for word; an unknown verb is quoted as it was typed. */
  lemma RefusalText(input: string)
    requires Parse(input).Err?
    ensures var line := TrimEol(input);
            var word := FirstWord(line);
            ReplyError(Parse(input).error) ==
            if AllWhite(line) then "ERR " + "empty command" + "\n"
            else if FoldsTo(word, "GET") then "ERR " + ("GET" + " takes exactly one key") + "\n"
            else if FoldsTo(word, "DEL") then "ERR " + ("DEL" + " takes exactly one key") + "\n"
            else if FoldsTo(word, "SET") then "ERR " + "SET takes a key and a value" + "\n"
            else "ERR " + ("unknown command \"" + QuoteBody(word) + "\"") + "\n"
    ensures Unquote(QuoteBody(FirstWord(TrimEol(input)))) == FirstWord(TrimEol(input))
  {
    var line := TrimEol(input);
    ParseErrors(input);
    BlankIsWhite(line);
    RefusalWords(Parse(input).error, FirstWord(line));
    UnquoteQuote(FirstWord(line));
  }

  lemma BlankIsWhite(line: string)
    ensures IsBlank(line) <==> AllWhite(line)
  {
    if IsBlank(line) { forall i | 0 <= i < |line| ensures IsSpace(line[i]) { } }
  }

  lemma RefusalWords(e: ParseError, word: string)
    requires match e
             case EmptyCommand => true
             case OneKey(verb) => verb == ToUpper(word) && (verb == "GET" || verb == "DEL")
             case KeyAndValue => ToUpper(word) == "SET"
             case Unknown(verb) =>
               verb == word && ToUpper(word) != "GET" && ToUpper(word) != "DEL" && ToUpper(word) != "SET"
    ensures ReplyError(e) ==
            if e.EmptyCommand? then "ERR " + "empty command" + "\n"
            else if FoldsTo(word, "GET") then "ERR " + ("GET" + " takes exactly one key") + "\n"
            else if FoldsTo(word, "DEL") then "ERR " + ("DEL" + " takes exactly one key") + "\n"
            else if FoldsTo(word, "SET") then "ERR " + "SET takes a key and a value" + "\n"
            else "ERR " + ("unknown command \"" + QuoteBody(word) + "\"") + "\n"
  {
    FoldsToVerb(word);
  }

  // ----- framing -----

  /** A reply is one line: a single LF, at the end, and no CR before it. */
  predicate OneLine(reply: string) {
    && reply != []
    && reply[|reply| - 1] == '\n'
    && NoLf(reply[..|reply| - 1])
    && !EndsInEol(reply[..|reply| - 1])
  }

  predicate Clean(cmd: Command) {
    NoLf(cmd.key) && (cmd.Set? ==> NoLf(cmd.value) && !EndsInEol(cmd.value))
  }

  lemma TrimReply(reply: string)
    requires OneLine(reply)
    ensures TrimEol(reply) == reply[..|reply| - 1]
  {
    TrimEolKeeps(reply[..|reply| - 1]);
  }

  lemma SplitNoLf(s: string, n: nat)
    requires n > 0 && NoLf(s)
    ensures forall i :: 0 <= i < |SplitN(s, n)| ==> NoLf(SplitN(s, n)[i])
  {
    var k := WordLength(s);
    if n > 1 && k < |s| { SplitNoLf(s[k + 1..], n - 1); }
  }

  lemma QuoteNoLf(s: string)
    ensures NoLf(QuoteBody(s))
  {
  }

  lemma TextOneLine(text: string)
    requires NoLf(text) && text != [] && !EndsInEol(text)
    ensures OneLine("ERR " + text + "\n")
  {
    var reply := "ERR " + text + "\n";
    assert reply[..|reply| - 1] == "ERR " + text;
  }

  lemma NoLfJoin(a: string, b: string)
    requires NoLf(a) && NoLf(b)
    ensures NoLf(a + b)
  {
  }

  lemma UnknownText(verb: string)
    ensures NoLf(ErrorText(Unknown(verb))) && !EndsInEol(ErrorText(Unknown(verb)))
  {
    QuoteNoLf(verb);
    NoLfJoin("unknown command \"", QuoteBody(verb));
  }

  lemma ErrorTextOneLine(e: ParseError)
    requires e.OneKey? ==> NoLf(e.verb)
    ensures OneLine(ReplyError(e))
  {
    match e
    case Unknown(verb) => UnknownText(verb); TextOneLine(ErrorText(e));
    case OneKey(verb) => NoLfJoin(verb, " takes exactly one key"); TextOneLine(ErrorText(e));
    case _ => TextOneLine(ErrorText(e));
  }

  /** A line without LF parses to a command without LF, or to an error whose reply is one line. */
  lemma ParseNoLf(line: string)
    requires NoLf(line)
    ensures Parse(line).Ok? ==> Clean(Parse(line).value)
    ensures Parse(line).Err? ==> OneLine(ReplyError(Parse(line).error))
  {
    ParseImage(line);
    SplitNoLf(TrimEol(line), 3);
    if Parse(line).Err? { ErrorTextOneLine(Parse(line).error); }
  }
}
