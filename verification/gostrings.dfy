/**
 * The two standard-library string operations the transaction code relies on:
 * `strings.Join(keys, ",")`, used to build the parameter list of the wrapped
 * action, and the `%q` verb of `fmt.Sprintf` (that is, `strconv.Quote`), used
 * to embed a query in a `db.query(...)` call. Each comes with an inverse and a
 * round-trip lemma, which is what makes the text they produce unambiguous.
 */
module GoStrings {
  import opened Wrappers

  /* ---------------------------------------------------------------------- */
  /* strings.Join with a comma separator, and its inverse                    */
  /* ---------------------------------------------------------------------- */

  /** `strings.Join(elems, ",")`: the empty list joins to the empty string. */
  function Join(elems: seq<string>): (r: string)
    ensures |elems| == 0 ==> r == ""
    ensures |elems| > 0 ==> |elems[0]| <= |r| && r[..|elems[0]|] == elems[0]
    ensures forall j :: 0 <= j < |r| && r[j] != ',' ==> exists i :: 0 <= i < |elems| && r[j] in elems[i]
  {
    if |elems| == 0 then ""
    else if |elems| == 1 then elems[0]
    else elems[0] + "," + Join(elems[1..])
  }

  /** Splits at every comma; like `strings.Split`, always yields one piece at least. */
  function Split(s: string): (pieces: seq<string>)
    ensures |pieces| >= 1
  {
    if |s| == 0 then [""]
    else
      var rest := Split(s[1..]);
      if s[0] == ',' then [""] + rest
      else [[s[0]] + rest[0]] + rest[1..]
  }

  /** Reads a comma-separated list back, the empty string being the empty list. */
  function SplitList(s: string): seq<string>
  {
    if |s| == 0 then [] else Split(s)
  }

  /** A name that survives joining: non-empty and free of the separator. */
  predicate IsListItem(k: string)
  {
    |k| > 0 && ',' !in k
  }

  lemma {:induction false} SplitNoComma(k: string)
    requires ',' !in k
    ensures Split(k) == [k]
  {
    if |k| > 0 {
      SplitNoComma(k[1..]);
      assert [k[0]] + k[1..] == k;
    }
  }

  lemma {:induction false} SplitFirstComma(k: string, t: string)
    requires ',' !in k
    ensures Split(k + "," + t) == [k] + Split(t)
  {
    if |k| == 0 {
      assert k + "," + t == [','] + t;
      assert ([','] + t)[1..] == t;
    } else {
      var s := k + "," + t;
      assert s[1..] == k[1..] + "," + t;
      SplitFirstComma(k[1..], t);
      assert [k[0]] + k[1..] == k;
    }
  }

  /** Splitting undoes joining whenever every element is a non-empty, comma-free name. */
  lemma {:induction false} SplitListJoin(elems: seq<string>)
    requires forall i :: 0 <= i < |elems| ==> IsListItem(elems[i])
    ensures SplitList(Join(elems)) == elems
  {
    if |elems| == 1 {
      SplitNoComma(elems[0]);
    } else if |elems| > 1 {
      SplitFirstComma(elems[0], Join(elems[1..]));
      JoinNonEmpty(elems[1..]);
      SplitListJoin(elems[1..]);
    }
  }

  /** A non-empty list of non-empty names never joins to the empty string. */
  lemma JoinNonEmpty(elems: seq<string>)
    requires |elems| > 0
    requires forall i :: 0 <= i < |elems| ==> IsListItem(elems[i])
    ensures |Join(elems)| > 0
  {
  }

  /** A character that no joined element contains does not occur in the join either. */
  lemma {:induction false} JoinAvoids(elems: seq<string>, c: char)
    requires c != ','
    requires forall i :: 0 <= i < |elems| ==> c !in elems[i]
    ensures c !in Join(elems)
  {
    if |elems| > 1 {
      JoinAvoids(elems[1..], c);
    }
  }

  /* ---------------------------------------------------------------------- */
  /* The %q verb (strconv.Quote) and its inverse                             */
  /* ---------------------------------------------------------------------- */

  const LowerHex: string := "0123456789abcdef"

  /** The lower-case hexadecimal digit of `n`. */
  function HexDigit(n: int): char
    requires 0 <= n < 16
  {
    LowerHex[n]
  }

  /** The value of a hexadecimal digit, upper or lower case. */
  function HexValue(c: char): Option<int>
  {
    if '0' <= c <= '9' then Some(c as int - '0' as int)
    else if 'a' <= c <= 'f' then Some(c as int - 'a' as int + 10)
    else if 'A' <= c <= 'F' then Some(c as int - 'A' as int + 10)
    else None
  }

  /** The one-letter escape Go uses for a control character, if it has one. */
  function NamedEscape(c: char): Option<char>
  {
    if c as int == 7 then Some('a')
    else if c as int == 8 then Some('b')
    else if c as int == 12 then Some('f')
    else if c == '\n' then Some('n')
    else if c == '\r' then Some('r')
    else if c == '\t' then Some('t')
    else if c as int == 11 then Some('v')
    else None
  }

  /** The control character a one-letter escape stands for, if it is one. */
  function NamedUnescape(e: char): Option<char>
  {
    if e == 'a' then Some(7 as char)
    else if e == 'b' then Some(8 as char)
    else if e == 'f' then Some(12 as char)
    else if e == 'n' then Some('\n')
    else if e == 'r' then Some('\r')
    else if e == 't' then Some('\t')
    else if e == 'v' then Some(11 as char)
    else None
  }

  /** ASCII control characters and DEL, which Go never emits verbatim. */
  predicate IsControl(c: char)
  {
    c as int < 0x20 || c as int == 0x7f
  }

  /**
   * How `strconv.Quote` renders one character inside the quotes: the quote and
   * the backslash get a backslash, controls with a one-letter name get that,
   * other controls get `\xhh`, everything else is copied.
   */
  function EscapeChar(c: char): (e: string)
    ensures |e| >= 1
    ensures e[0] == '\\' || (e == [c] && !IsControl(c) && c != '"')
  {
    if c == '"' || c == '\\' then ['\\', c]
    else if !IsControl(c) then [c]
    else match NamedEscape(c)
      case Some(l) => ['\\', l]
      case None => ['\\', 'x', HexDigit(c as int / 16), HexDigit(c as int % 16)]
  }

  function EscapeAll(s: string): string
  {
    if |s| == 0 then "" else EscapeChar(s[0]) + EscapeAll(s[1..])
  }

  /** `fmt.Sprintf("%q", s)`. */
  function Quote(s: string): (q: string)
    ensures |q| >= 2 && q[0] == '"' && q[|q| - 1] == '"'
  {
    "\"" + EscapeAll(s) + "\""
  }

  /** Reads the text between the quotes back; `None` for a malformed escape or a bare quote. */
  function UnescapeAll(t: string): Option<string>
  {
    if |t| == 0 then Some("")
    else if t[0] == '"' then None
    else if t[0] != '\\' then
      match UnescapeAll(t[1..])
      case Some(r) => Some([t[0]] + r)
      case None => None
    else if |t| < 2 then None
    else if t[1] == '"' || t[1] == '\\' then
      match UnescapeAll(t[2..])
      case Some(r) => Some([t[1]] + r)
      case None => None
    else if t[1] == 'x' then
      if |t| < 4 then None
      else match (HexValue(t[2]), HexValue(t[3]))
        case (Some(hi), Some(lo)) =>
          (match UnescapeAll(t[4..])
           case Some(r) => Some([(hi * 16 + lo) as char] + r)
           case None => None)
        case _ => None
    else match NamedUnescape(t[1])
      case Some(c) =>
        (match UnescapeAll(t[2..])
         case Some(r) => Some([c] + r)
         case None => None)
      case None => None
  }

  /** The inverse of `Quote`, in the manner of `strconv.Unquote`. */
  function Unquote(q: string): Option<string>
  {
    if |q| >= 2 && q[0] == '"' && q[|q| - 1] == '"' then UnescapeAll(q[1..|q| - 1])
    else None
  }

  /** Reading back one escaped character consumes exactly its escape. */
  lemma UnescapeOne(c: char, rest: string)
    ensures UnescapeAll(EscapeChar(c) + rest) ==
            (match UnescapeAll(rest) case Some(r) => Some([c] + r) case None => None)
  {
    var t := EscapeChar(c) + rest;
    if c == '"' || c == '\\' {
      assert t[2..] == rest;
    } else if !IsControl(c) {
      assert t[1..] == rest;
    } else if NamedEscape(c).Some? {
      assert t[2..] == rest;
    } else {
      var n := c as int;
      assert t[4..] == rest;
      assert HexValue(t[2]) == Some(n / 16);
      assert HexValue(t[3]) == Some(n % 16);
      assert (n / 16 * 16 + n % 16) as char == c;
    }
  }

  lemma {:induction false} UnescapeEscapeAll(s: string)
    ensures UnescapeAll(EscapeAll(s)) == Some(s)
  {
    if |s| > 0 {
      UnescapeOne(s[0], EscapeAll(s[1..]));
      UnescapeEscapeAll(s[1..]);
      assert [s[0]] + s[1..] == s;
    }
  }

  /** Quoting loses nothing: the quoted text determines the original string. */
  lemma UnquoteQuote(s: string)
    ensures Unquote(Quote(s)) == Some(s)
  {
    var q := Quote(s);
    assert q[1..|q| - 1] == EscapeAll(s);
    UnescapeEscapeAll(s);
  }

  /** Distinct strings quote differently. */
  lemma QuoteInjective(s: string, t: string)
    requires Quote(s) == Quote(t)
    ensures s == t
  {
    UnquoteQuote(s);
    UnquoteQuote(t);
  }
}
