/** A reader of TypeScript type expressions, as far as the generator of packages/cli/src/capabilities-gen-cli.ts writes
    them: keywords, literals, `Array<..>`, `Record<string, ..>`, object types, `|`, and `&`, which binds closer. White
    space and comments mean nothing. */
module TypeText {
  import opened Wrappers
  import opened Json
  import opened Text
  import opened TypeScript

  /** How string and number literals are written, and read at the front of a text. */
  datatype Literals = Literals(str: Stringify, read: string -> Option<(Json, string)>)

  // ---------- tokens ----------

  /** What follows the end of the comment whose beginning has been read. */
  function AfterComment(s: string): (r: Option<string>)
    ensures r.Some? ==> |r.value| < |s|
  {
    if |s| < 2 then None
    else if s[0] == '*' && s[1] == '/' then Some(s[2..])
    else AfterComment(s[1..])
  }

  predicate StartsComment(s: string) {
    |s| >= 2 && s[0] == '/' && s[1] == '*' && AfterComment(s[2..]).Some?
  }

  function Skip(s: string): (r: string)
    ensures |r| <= |s|
    decreases |s|
  {
    if s != "" && IsSpace(s[0]) then Skip(s[1..])
    else if StartsComment(s) then Skip(AfterComment(s[2..]).value)
    else s
  }

  function Eat(token: string, s: string): (r: Option<string>)
    ensures r.Some? ==> |r.value| + |token| <= |s|
  {
    var t := Skip(s);
    if token <= t then Some(t[|token|..]) else None
  }

  function EatAll(tokens: seq<string>, s: string): (r: Option<string>)
    ensures r.Some? ==> |r.value| <= |s|
    decreases |tokens|
  {
    if tokens == [] then Some(s)
    else match Eat(tokens[0], s)
      case None => None
      case Some(rest) => EatAll(tokens[1..], rest)
  }

  predicate IdentPart(c: char) {
    IdentStart(c) || '0' <= c <= '9'
  }

  /** The word at the front. */
  function Word(s: string): (w: string)
    ensures w <= s
  {
    if s != "" && IdentPart(s[0]) then [s[0]] + Word(s[1..]) else ""
  }

  // ---------- types ----------

  function Union(ts: seq<Ty>): Ty {
    if |ts| == 1 then ts[0] else TUnion(ts)
  }

  function Inter(ts: seq<Ty>): Ty {
    if |ts| == 1 then ts[0] else TInter(ts)
  }

  function FromRows(rows: seq<seq<Ty>>): Ty {
    Union(seq(|rows|, i requires 0 <= i < |rows| => Inter(rows[i])))
  }

  /** `a | b & c | d`: the last row of the left and the first row of the right become one. */
  function Merge(a: seq<seq<Ty>>, b: seq<seq<Ty>>): seq<seq<Ty>> {
    if a == [] then b
    else if b == [] then a
    else a[..|a| - 1] + [a[|a| - 1] + b[0]] + b[1..]
  }

  function ObjectOf(props: seq<Prop>, index: Option<Ty>): Ty {
    if props == [] && index == None then TEmpty else TObject(props, index)
  }

  /** A type at the front of a text, and what follows it, behind white space and comments. */
  function ReadType(l: Literals, s: string): Option<(Ty, string)> {
    match ReadRows(l, s)
    case None => None
    case Some((rows, rest)) => Some((FromRows(rows), rest))
  }

  function ReadRows(l: Literals, s: string): (r: Option<(seq<seq<Ty>>, string)>)
    ensures r.Some? ==> |r.value.1| < |s|
    decreases |s|, 2
  {
    match ReadPrimary(l, s)
    case None => None
    case Some((t, rest)) => After(l, [[t]], rest)
  }

  /** What is read of `first` and the operators behind it. */
  function After(l: Literals, first: seq<seq<Ty>>, s: string): (r: Option<(seq<seq<Ty>>, string)>)
    ensures r.Some? ==> |r.value.1| <= |s|
    decreases |s|, 3
  {
    var rest := Skip(s);
    if rest != "" && rest[0] == '|' then
      match ReadRows(l, rest[1..])
      case None => None
      case Some((more, end)) => Some((first + more, end))
    else if rest != "" && rest[0] == '&' then
      match ReadRows(l, rest[1..])
      case None => None
      case Some((more, end)) => Some((Merge(first, more), end))
    else Some((first, rest))
  }

  function ReadPrimary(l: Literals, s: string): (r: Option<(Ty, string)>)
    ensures r.Some? ==> |r.value.1| < |s|
    decreases |s|, 1
  {
    var t := Skip(s);
    if t == "" then None
    else if t[0] == '{' then
      match ReadMembers(l, t[1..])
      case None => None
      case Some((props, index, rest)) => Some((ObjectOf(props, index), rest))
    else if IdentStart(t[0]) then ReadWord(l, Word(t), t[|Word(t)|..])
    else match ReadLiteral(l, t)
      case None => None
      case Some((x, rest)) => Some((TLit(x), Skip(rest)))
  }

  function ReadLiteral(l: Literals, t: string): (r: Option<(Json, string)>)
    ensures r.Some? ==> |r.value.1| < |t|
  {
    var r := l.read(t);
    if r.Some? && |r.value.1| < |t| then r else None
  }

  /** A type that begins with a word. */
  function ReadWord(l: Literals, word: string, rest: string): (r: Option<(Ty, string)>)
    ensures r.Some? ==> |r.value.1| <= |rest|
    decreases |rest|, 4
  {
    match word
    case "unknown" => Some((TUnknown(""), Skip(rest)))
    case "never" => Some((TNever, Skip(rest)))
    case "string" => Some((TString(""), Skip(rest)))
    case "number" => Some((TNumber, Skip(rest)))
    case "boolean" => Some((TBoolean, Skip(rest)))
    case "null" => Some((TNull, Skip(rest)))
    case "true" => Some((TLit(JBool(true)), Skip(rest)))
    case "false" => Some((TLit(JBool(false)), Skip(rest)))
    case "Array" =>
      (match ReadArgument(l, ["<"], rest)
       case None => None
       case Some((t, end)) => Some((TArray(t), end)))
    case "Record" =>
      (match ReadArgument(l, ["<", "string", ","], rest)
       case None => None
       case Some((t, end)) => Some((TRecord(t), end)))
    case _ => None
  }

  /** The last argument of a generic type, behind what opens it. */
  function ReadArgument(l: Literals, opening: seq<string>, s: string): (r: Option<(Ty, string)>)
    ensures r.Some? ==> |r.value.1| <= |s|
    decreases |s|, 3
  {
    match EatAll(opening, s)
    case None => None
    case Some(inner) =>
      match ReadRows(l, inner)
      case None => None
      case Some((rows, end)) =>
        match Eat(">", end)
        case None => None
        case Some(rest) => Some((FromRows(rows), Skip(rest)))
  }

  /** The members of an object type, up to its closing brace. */
  function ReadMembers(l: Literals, s: string): (r: Option<(seq<Prop>, Option<Ty>, string)>)
    ensures r.Some? ==> |r.value.2| <= |s|
    decreases |s|, 5
  {
    var t := Skip(s);
    if t == "" then None
    else if t[0] == '}' then Some(([], None, Skip(t[1..])))
    else if t[0] == '[' then
      match ReadMember(l, EatIndex(t), |t|)
      case None => None
      case Some((ty, end)) =>
        match Eat("}", end)
        case None => None
        case Some(rest) => Some(([], Some(ty), Skip(rest)))
    else match ReadKey(l, t)
      case None => None
      case Some((key, behind)) =>
        var mark := Eat("?", behind);
        match ReadMember(l, Eat(":", if mark.Some? then mark.value else behind), |t|)
        case None => None
        case Some((ty, end)) =>
          match ReadMembers(l, end)
          case None => None
          case Some((props, index, rest)) => Some(([Prop(key, [], mark.Some?, ty)] + props, index, rest))
  }

  /** `[key: string]:`. */
  function EatIndex(s: string): (r: Option<string>)
    ensures r.Some? ==> |r.value| <= |s|
  {
    match EatAll(["[", "key", ":"], s)
    case None => None
    case Some(rest) => EatAll(["string", "]", ":"], rest)
  }

  /** The type of a member and the semicolon behind it; `s` is what follows its colon. */
  function ReadMember(l: Literals, s: Option<string>, bound: nat): (r: Option<(Ty, string)>)
    requires s.Some? ==> |s.value| <= bound
    ensures r.Some? ==> |r.value.1| < bound
    decreases bound, 4
  {
    if s.None? then None
    else match ReadRows(l, s.value)
      case None => None
      case Some((rows, end)) =>
        match Eat(";", end)
        case None => None
        case Some(rest) => Some((FromRows(rows), rest))
  }

  function ReadKey(l: Literals, t: string): (r: Option<(string, string)>)
    requires t != ""
    ensures r.Some? ==> |r.value.1| < |t|
  {
    if IdentStart(t[0]) then Some((Word(t), t[|Word(t)|..]))
    else match ReadLiteral(l, t)
      case Some((JStr(key), rest)) => Some((key, rest))
      case _ => None
  }
}
