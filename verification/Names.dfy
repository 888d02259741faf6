/** Generated object names, quoted identifiers and the dollar-quoted DO block. */
module Names {
  import opened Wrappers
  import opened Text
  import opened Catalog

  // ------------------------------------------------------------ object names

  function Digit(n: nat): char
    requires n < 10
  {
    '0' + n as char
  }

  /** strconv.Itoa of a length. */
  function Itoa(n: nat): string
  {
    if n < 10 then [Digit(n)] else Itoa(n / 10) + [Digit(n % 10)]
  }

  function Atoi(s: string): int
  {
    if s == "" then 0 else 10 * Atoi(s[..|s| - 1]) + (s[|s| - 1] as int - '0' as int)
  }

  lemma {:induction false} AtoiItoa(n: nat)
    ensures Atoi(Itoa(n)) == n && ':' !in Itoa(n)
  {
    if n >= 10 {
      AtoiItoa(n / 10);
      assert Itoa(n)[..|Itoa(n)| - 1] == Itoa(n / 10);
    } else {
      assert [Digit(n)][..0] == "";
    }
  }

  /** The text that is hashed: each part with its length in front. */
  function Payload(kind: string, table: string, column: string): string
  {
    Itoa(ByteLen(kind)) + ":" + kind + (Itoa(ByteLen(table)) + ":" + table + (Itoa(ByteLen(column)) + ":" + column))
  }

  lemma {:induction false} ColonSplits(a: string, x: string, b: string, y: string)
    requires ':' !in a && ':' !in b && a + ":" + x == b + ":" + y
    ensures a == b && x == y
  {
    var s := a + ":" + x;
    assert a != "" ==> s[0] == a[0] && a[0] in a;
    assert b != "" ==> s[0] == b[0] && b[0] in b;
    assert (a == "" ==> s[0] == ':') && (b == "" ==> s[0] == ':');
    if a == "" || b == "" {
      assert s[1..] == x && s[1..] == y;
    } else {
      assert s[1..] == a[1..] + ":" + x && s[1..] == b[1..] + ":" + y;
      ColonSplits(a[1..], x, b[1..], y);
      assert a == [a[0]] + a[1..] && b == [b[0]] + b[1..];
    }
  }

  lemma {:induction false} LengthSplits(a: string, x: string, b: string, y: string)
    requires ByteLen(a) == ByteLen(b) && a + x == b + y
    ensures a == b && x == y
  {
    if a == "" || b == "" {
      assert a == "" && b == "";
      assert a + x == x && b + y == y;
    } else {
      assert (a + x)[0] == a[0] && (b + y)[0] == b[0];
      assert (a + x)[1..] == a[1..] + x && (b + y)[1..] == b[1..] + y;
      LengthSplits(a[1..], x, b[1..], y);
      assert a == [a[0]] + a[1..] && b == [b[0]] + b[1..];
    }
  }

  lemma PartSplits(a: string, x: string, b: string, y: string)
    requires Itoa(ByteLen(a)) + ":" + a + x == Itoa(ByteLen(b)) + ":" + b + y
    ensures a == b && x == y
  {
    AtoiItoa(ByteLen(a));
    AtoiItoa(ByteLen(b));
    assert Itoa(ByteLen(a)) + ":" + a + x == Itoa(ByteLen(a)) + ":" + (a + x);
    assert Itoa(ByteLen(b)) + ":" + b + y == Itoa(ByteLen(b)) + ":" + (b + y);
    ColonSplits(Itoa(ByteLen(a)), a + x, Itoa(ByteLen(b)), b + y);
    LengthSplits(a, x, b, y);
  }

  /** Different kinds, tables or columns never hash the same text: a_b.c and a.b_c stay apart. */
  lemma PayloadInjective(k1: string, t1: string, c1: string, k2: string, t2: string, c2: string)
    requires Payload(k1, t1, c1) == Payload(k2, t2, c2)
    ensures k1 == k2 && t1 == t2 && c1 == c2
  {
    var x1, x2 := Itoa(ByteLen(c1)) + ":" + c1, Itoa(ByteLen(c2)) + ":" + c2;
    PartSplits(k1, Itoa(ByteLen(t1)) + ":" + t1 + x1, k2, Itoa(ByteLen(t2)) + ":" + t2 + x2);
    PartSplits(t1, x1, t2, x2);
    assert x1 == x1 + "" && x2 == x2 + "";
    PartSplits(c1, "", c2, "");
  }

  predicate Readable(c: char)
  {
    'a' <= c <= 'z' || '0' <= c <= '9'
  }

  /** The loop of readableIdentifier over lowered text: other runs become one underscore. */
  function Squash(s: string, underscore: bool): string
  {
    if s == "" then ""
    else if Readable(s[0]) then [s[0]] + Squash(s[1..], false)
    else if !underscore then "_" + Squash(s[1..], true)
    else Squash(s[1..], true)
  }

  function TrimLeft(s: string): string
  {
    if s != "" && s[0] == '_' then TrimLeft(s[1..]) else s
  }

  function TrimRight(s: string): string
  {
    if s != "" && s[|s| - 1] == '_' then TrimRight(s[..|s| - 1]) else s
  }

  function Trim(s: string): string
  {
    TrimRight(TrimLeft(s))
  }

  function Lowered(s: string, lower: char -> char): string
  {
    seq(|s|, i requires 0 <= i < |s| => lower(s[i]))
  }

  function Readably(s: string, lower: char -> char): string
  {
    Trim(Squash(Lowered(s, lower), false))
  }

  method ReadableIdentifier(s: string, lower: char -> char) returns (out: string)
    ensures out == Readably(s, lower)
  {
    var b := "";
    var underscore := false;
    var text := Lowered(s, lower);
    for i := 0 to |text|
      invariant b + Squash(text[i..], underscore) == Squash(text, false)
    {
      assert text[i..][0] == text[i] && text[i..][1..] == text[i + 1..];
      var was := b;
      if Readable(text[i]) {
        b := b + [text[i]];
        assert b + Squash(text[i + 1..], false) == was + ([text[i]] + Squash(text[i + 1..], false));
        underscore := false;
      } else if !underscore {
        b := b + "_";
        assert b + Squash(text[i + 1..], true) == was + ("_" + Squash(text[i + 1..], true));
        underscore := true;
      }
    }
    assert text[|text|..] == "" && b + "" == b;
    return Trim(b);
  }

  const MAX_NAME := 63
  const DIGEST := 16

  /** The readable middle: cut to fit, and never empty. */
  function Middle(kind: string, readable: string): string
    requires |kind| + DIGEST + 2 <= MAX_NAME
  {
    var room := MAX_NAME - (|kind| + DIGEST + 2);
    var cut := if |readable| > room then Trim(readable[..room]) else readable;
    if cut == "" then "object" else cut
  }

  /** databaseObjectName, over a digest of the payload. */
  function ObjectName(kind: string, table: string, column: string, digest: string -> string, lower: char -> char): string
    requires |kind| + DIGEST + 2 <= MAX_NAME
  {
    kind + "_" + Middle(kind, Readably(table + "_" + column, lower)) + "_" + digest(Payload(kind, table, column))
  }

  predicate NameChar(c: char)
  {
    Readable(c) || c == '_'
  }

  lemma {:induction false} SquashChars(s: string, underscore: bool)
    ensures forall i :: 0 <= i < |Squash(s, underscore)| ==> NameChar(Squash(s, underscore)[i])
  {
    if s != "" {
      SquashChars(s[1..], !Readable(s[0]));
    }
  }

  lemma {:induction false} TrimLeftPart(s: string)
    ensures |TrimLeft(s)| <= |s| && forall i :: 0 <= i < |TrimLeft(s)| ==> TrimLeft(s)[i] in s
  {
    if s != "" && s[0] == '_' {
      TrimLeftPart(s[1..]);
    }
  }

  lemma {:induction false} TrimRightPart(s: string)
    ensures |TrimRight(s)| <= |s| && forall i :: 0 <= i < |TrimRight(s)| ==> TrimRight(s)[i] in s
  {
    if s != "" && s[|s| - 1] == '_' {
      TrimRightPart(s[..|s| - 1]);
    }
  }

  lemma TrimPart(s: string)
    ensures |Trim(s)| <= |s| && forall i :: 0 <= i < |Trim(s)| ==> Trim(s)[i] in s
  {
    TrimLeftPart(s);
    TrimRightPart(TrimLeft(s));
    forall i | 0 <= i < |Trim(s)| ensures Trim(s)[i] in s {
      assert Trim(s)[i] in TrimLeft(s);
    }
  }

  lemma ReadablyChars(s: string, lower: char -> char)
    ensures forall i :: 0 <= i < |Readably(s, lower)| ==> NameChar(Readably(s, lower)[i])
  {
    var squashed := Squash(Lowered(s, lower), false);
    SquashChars(Lowered(s, lower), false);
    TrimPart(squashed);
    forall i | 0 <= i < |Readably(s, lower)| ensures NameChar(Readably(s, lower)[i]) {
      assert Readably(s, lower)[i] in squashed;
    }
  }

  /** Whatever the names, the result stays within PostgreSQL's 63 bytes, and every byte is plain. */
  lemma NameFits(kind: string, table: string, column: string, digest: string -> string, lower: char -> char)
    requires kind == "pk" || kind == "uq" || kind == "idx"
    requires |digest(Payload(kind, table, column))| == DIGEST
    requires forall i :: 0 <= i < DIGEST ==> Readable(digest(Payload(kind, table, column))[i])
    ensures |ObjectName(kind, table, column, digest, lower)| <= MAX_NAME
    ensures forall i :: 0 <= i < |ObjectName(kind, table, column, digest, lower)| ==> NameChar(ObjectName(kind, table, column, digest, lower)[i])
    ensures ByteLen(ObjectName(kind, table, column, digest, lower)) == |ObjectName(kind, table, column, digest, lower)|
  {
    var readable, room := Readably(table + "_" + column, lower), MAX_NAME - (|kind| + DIGEST + 2);
    ReadablyChars(table + "_" + column, lower);
    var middle := Middle(kind, readable);
    if |readable| > room {
      TrimPart(readable[..room]);
      forall i | 0 <= i < |Trim(readable[..room])| ensures NameChar(Trim(readable[..room])[i]) {
        assert Trim(readable[..room])[i] in readable[..room];
      }
    }
    assert |middle| <= room && forall i :: 0 <= i < |middle| ==> NameChar(middle[i]);
    PlainBytes(ObjectName(kind, table, column, digest, lower));
  }

  lemma {:induction false} PlainBytes(s: string)
    requires forall i :: 0 <= i < |s| ==> NameChar(s[i])
    ensures ByteLen(s) == |s|
  {
    if s != "" {
      PlainBytes(s[1..]);
    }
  }

  function KindText(k: Kind): string
  {
    match k
    case PrimaryKey => "pk"
    case UniqueKey => "uq"
    case PlainIndex => "idx"
  }

  function PayloadOf(o: Obj): string
  {
    Payload(KindText(o.kind), o.table, o.column)
  }

  function NameOf(o: Obj, digest: string -> string, lower: char -> char): string
  {
    ObjectName(KindText(o.kind), o.table, o.column, digest, lower)
  }

  lemma NameEnds(o: Obj, digest: string -> string, lower: char -> char)
    requires |digest(PayloadOf(o))| == DIGEST
    ensures var n := NameOf(o, digest, lower); |n| >= DIGEST && n[|n| - DIGEST..] == digest(PayloadOf(o))
  {
  }

  lemma SameNameSameObject(o: Obj, p: Obj, digest: string -> string, lower: char -> char)
    requires NameOf(o, digest, lower) == NameOf(p, digest, lower)
    requires |digest(PayloadOf(o))| == DIGEST && |digest(PayloadOf(p))| == DIGEST
    requires digest(PayloadOf(o)) == digest(PayloadOf(p)) ==> PayloadOf(o) == PayloadOf(p)
    ensures o == p
  {
    NameEnds(o, digest, lower);
    NameEnds(p, digest, lower);
    PayloadInjective(KindText(o.kind), o.table, o.column, KindText(p.kind), p.table, p.column);
  }

  /**
    The generated names are collision free, as the catalog simulation asks, whenever the digest tells
    the payloads in play apart and no table carries a generated name.
    */
  lemma GeneratedNamesCollisionFree(w: Naming, digest: string -> string, lower: char -> char)
    requires forall o :: o in w.universe ==> w.name(o) == NameOf(o, digest, lower) && |digest(PayloadOf(o))| == DIGEST
    requires forall o, p :: o in w.universe && p in w.universe && digest(PayloadOf(o)) == digest(PayloadOf(p)) ==> PayloadOf(o) == PayloadOf(p)
    requires forall o :: o in w.universe ==> w.name(o) !in w.tables
    ensures CollisionFree(w)
  {
    forall o, p | o in w.universe && p in w.universe && w.name(o) == w.name(p) ensures o == p {
      SameNameSameObject(o, p, digest, lower);
    }
  }

  // ----------------------------------------------------------------- quoting

  /** strings.ReplaceAll(s, q, qq). */
  function Doubled(q: char, s: string): string
  {
    if s == "" then "" else (if s[0] == q then [q, q] else [s[0]]) + Doubled(q, s[1..])
  }

  /** quoteIdentifier with '"', quoteLiteral with '\''. */
  function Quote(q: char, s: string): string
  {
    [q] + Doubled(q, s) + [q]
  }

  /** The delimited-token rule of section 5.2 of ISO/IEC 9075-2, after the opening quote: a doubled quote is one, a single one ends. */
  function LexBody(q: char, s: string): Option<(string, string)>
  {
    if s == "" then None
    else if s[0] == q then
      if |s| > 1 && s[1] == q then
        match LexBody(q, s[2..]) case None => None case Some((name, rest)) => Some(([q] + name, rest))
      else Some(("", s[1..]))
    else
      match LexBody(q, s[1..]) case None => None case Some((name, rest)) => Some(([s[0]] + name, rest))
  }

  function Lex(q: char, s: string): Option<(string, string)>
  {
    if s == "" || s[0] != q then None else LexBody(q, s[1..])
  }

  /** A quoted name lexes back to exactly itself, whatever it contains and whatever follows. */
  lemma QuoteLexes(q: char, name: string, rest: string)
    requires rest == "" || rest[0] != q
    ensures Lex(q, Quote(q, name) + rest) == Some((name, rest))
  {
    BodyLexes(q, name, rest);
    assert (Quote(q, name) + rest)[1..] == Doubled(q, name) + ([q] + rest);
  }

  lemma {:induction false} BodyLexes(q: char, name: string, rest: string)
    requires rest == "" || rest[0] != q
    ensures LexBody(q, Doubled(q, name) + ([q] + rest)) == Some((name, rest))
  {
    var s := Doubled(q, name) + ([q] + rest);
    if name == "" {
      assert s == [q] + rest && s[1..] == rest;
    } else {
      var tail := Doubled(q, name[1..]) + ([q] + rest);
      BodyLexes(q, name[1..], rest);
      assert name == [name[0]] + name[1..];
      if name[0] == q {
        assert s == [q, q] + tail && s[2..] == tail;
      } else {
        assert s == [name[0]] + tail && s[1..] == tail;
      }
    }
  }

  // ---------------------------------------------------------- dollar quoting

  predicate Contains(s: string, w: string)
  {
    w <= s || (s != "" && Contains(s[1..], w))
  }

  function Underscores(n: nat): string
  {
    if n == 0 then "" else Underscores(n - 1) + "_"
  }

  function TagOf(n: nat): string
  {
    "$fabrin" + Underscores(n) + "$"
  }

  predicate Collides(values: seq<string>, tag: string)
  {
    exists i :: 0 <= i < |values| && Contains(values[i], tag)
  }

  lemma {:induction false} FitsIn(s: string, w: string)
    ensures Contains(s, w) ==> |w| <= |s|
  {
    if s != "" {
      FitsIn(s[1..], w);
    }
  }

  lemma {:induction false} UnderscoresChars(n: nat)
    ensures |Underscores(n)| == n && forall i :: 0 <= i < n ==> Underscores(n)[i] == '_'
  {
    if n > 0 {
      UnderscoresChars(n - 1);
    }
  }

  function Longest(values: seq<string>): nat
  {
    if values == [] then 0
    else
      var most := Longest(values[..|values| - 1]);
      if |values[|values| - 1]| > most then |values[|values| - 1]| else most
  }

  lemma {:induction false} LongestIs(values: seq<string>)
    ensures forall i :: 0 <= i < |values| ==> |values[i]| <= Longest(values)
  {
    if values != [] {
      LongestIs(values[..|values| - 1]);
    }
  }

  /** The loop terminates: once the tag is longer than every value, nothing can contain it. */
  method DollarQuoteTag(values: seq<string>) returns (tag: string)
    ensures !Collides(values, tag)
    ensures exists n: nat :: tag == TagOf(n) && forall m: nat :: m < n ==> Collides(values, TagOf(m))
  {
    var name := "fabrin";
    ghost var n := 0;
    LongestIs(values);
    while true
      invariant name == "fabrin" + Underscores(n)
      invariant forall m: nat :: m < n ==> Collides(values, TagOf(m))
      decreases Longest(values) - n
    {
      tag := "$" + name + "$";
      assert tag == TagOf(n);
      var collides := false;
      for i := 0 to |values|
        invariant !collides
        invariant forall j :: 0 <= j < i ==> !Contains(values[j], tag)
      {
        if Contains(values[i], tag) {
          collides := true;
          break;
        }
      }
      if !collides {
        return;
      }
      UnderscoresChars(n);
      var j :| 0 <= j < |values| && Contains(values[j], tag);
      FitsIn(values[j], tag);
      name := name + "_";
      n := n + 1;
    }
  }

  lemma {:induction false} SplitContains(x: string, c: char, y: string, w: string)
    requires w != "" && c !in w && Contains(x + [c] + y, w)
    ensures Contains(x, w) || Contains(y, w)
  {
    var s := x + [c] + y;
    assert |x| < |w| ==> w[|x|] in w;
    assert s[|x|] == c;
    if x == "" {
      assert s[1..] == y;
    } else {
      assert s[1..] == x[1..] + [c] + y;
      if w <= s {
        assert w <= x;
      } else {
        SplitContains(x[1..], c, y, w);
      }
    }
  }

  lemma {:induction false} NoDollar(s: string, w: string)
    requires w != "" && w[0] == '$' && '$' !in s
    ensures !Contains(s, w)
  {
    if s != "" {
      assert s[0] in s;
      forall c | c in s[1..] ensures c in s {
      }
      NoDollar(s[1..], w);
    }
  }

  lemma {:induction false} PrefixDoubled(q: char, v: string, w: string)
    requires q !in w && w <= Doubled(q, v)
    ensures w <= v
  {
    if w != "" {
      assert w[0] in w;
      assert w[0] == Doubled(q, v)[0];
      assert w[1..] <= Doubled(q, v)[1..];
      assert Doubled(q, v)[1..] == Doubled(q, v[1..]);
      forall c | c in w[1..] ensures c in w {
      }
      PrefixDoubled(q, v[1..], w[1..]);
      assert w == [w[0]] + w[1..] && v == [v[0]] + v[1..];
    }
  }

  lemma {:induction false} DoubledContains(q: char, v: string, w: string)
    requires w != "" && q !in w && Contains(Doubled(q, v), w)
    ensures Contains(v, w)
  {
    if v != "" {
      var d, rest := Doubled(q, v), Doubled(q, v[1..]);
      assert w[0] in w;
      if v[0] == q {
        assert d[1..] == [q] + rest && d[1..][1..] == rest;
        DoubledContains(q, v[1..], w);
      } else {
        assert d[1..] == rest;
        if w <= d {
          PrefixDoubled(q, v, w);
        } else {
          DoubledContains(q, v[1..], w);
        }
      }
    }
  }

  /** The fixed text of the DO block, between its five quoted literals. */
  datatype DoText = DoText(start: string, onColumn: string, raise: string, comma: string, execute: string, close: string)

  const DECLARE := ["\nDECLARE\n  constraint_name text;\nBEGIN\n", "  SELECT c.conname INTO constraint_name\n", "  FROM pg_constraint AS c\n", "  JOIN pg_attribute AS a"]
  const JOIN := [" ON a.attrelid = c.conrelid", " AND a.attnum = c.conkey[1]\n", "  WHERE c.conrelid = to_regclass(", "format('%I', "]
  const SINGLE := ["))\n    AND c.contype = 'p'\n", "    AND array_length(c.conkey, 1) = 1\n", "    AND a.attname = "]
  const RAISE := [";\n  IF constraint_name IS NULL THEN\n", "    RAISE EXCEPTION ", "'fabrin: table % has no ", "single-column primary key on %', "]
  const EXECUTE := [";\n  END IF;\n  EXECUTE format(", "'ALTER TABLE %I ", "DROP CONSTRAINT %I', "]

  function Joined(pieces: seq<string>): string
  {
    if pieces == [] then "" else pieces[0] + Joined(pieces[1..])
  }

  function BlockText(): DoText
  {
    DoText(Joined(DECLARE) + Joined(JOIN), Joined(SINGLE), Joined(RAISE), ", ", Joined(EXECUTE), ", constraint_name);\nEND;")
  }

  predicate Dollarless(text: DoText)
  {
    && '$' !in text.start && '$' !in text.onColumn && '$' !in text.raise
    && '$' !in text.comma && '$' !in text.execute && '$' !in text.close
  }

  lemma {:induction false} JoinedDollarless(pieces: seq<string>)
    requires forall i :: 0 <= i < |pieces| ==> '$' !in pieces[i]
    ensures '$' !in Joined(pieces)
  {
    if pieces != [] {
      JoinedDollarless(pieces[1..]);
    }
  }

  lemma DeclareDollarless(i: nat)
    requires i < |DECLARE|
    ensures '$' !in DECLARE[i]
  {
  }

  lemma JoinDollarless(i: nat)
    requires i < |JOIN|
    ensures '$' !in JOIN[i]
  {
  }

  lemma SingleDollarless(i: nat)
    requires i < |SINGLE|
    ensures '$' !in SINGLE[i]
  {
  }

  lemma RaiseDollarless(i: nat)
    requires i < |RAISE|
    ensures '$' !in RAISE[i]
  {
  }

  lemma ExecuteDollarless(i: nat)
    requires i < |EXECUTE|
    ensures '$' !in EXECUTE[i]
  {
  }

  lemma DeclareText()
    ensures '$' !in Joined(DECLARE)
  {
    forall i | 0 <= i < |DECLARE| ensures '$' !in DECLARE[i] {
      DeclareDollarless(i);
    }
    JoinedDollarless(DECLARE);
  }

  lemma JoinText()
    ensures '$' !in Joined(JOIN)
  {
    forall i | 0 <= i < |JOIN| ensures '$' !in JOIN[i] {
      JoinDollarless(i);
    }
    JoinedDollarless(JOIN);
  }

  lemma SingleText()
    ensures '$' !in Joined(SINGLE)
  {
    forall i | 0 <= i < |SINGLE| ensures '$' !in SINGLE[i] {
      SingleDollarless(i);
    }
    JoinedDollarless(SINGLE);
  }

  lemma RaiseText()
    ensures '$' !in Joined(RAISE)
  {
    forall i | 0 <= i < |RAISE| ensures '$' !in RAISE[i] {
      RaiseDollarless(i);
    }
    JoinedDollarless(RAISE);
  }

  lemma ExecuteText()
    ensures '$' !in Joined(EXECUTE)
  {
    forall i | 0 <= i < |EXECUTE| ensures '$' !in EXECUTE[i] {
      ExecuteDollarless(i);
    }
    JoinedDollarless(EXECUTE);
  }

  lemma BlockTextDollarless()
    ensures Dollarless(BlockText())
  {
    DeclareText();
    JoinText();
    SingleText();
    RaiseText();
    ExecuteText();
  }

  /** Everything between the two delimiters of dropPrimaryKey's block. */
  function DoBody(text: DoText, table: string, column: string): string
  {
    text.start + Quote('\'', table)
    + (text.onColumn + Quote('\'', column)
    + (text.raise + Quote('\'', table)
    + (text.comma + Quote('\'', column)
    + (text.execute + Quote('\'', table)
    + (text.close + "\n")))))
  }

  lemma LiteralSplits(before: string, v: string, after: string, w: string)
    requires w != "" && '\'' !in w && !Contains(before, w) && !Contains(v, w) && !Contains(after, w)
    ensures !Contains(before + Quote('\'', v) + after, w)
  {
    var d := Doubled('\'', v);
    assert before + Quote('\'', v) + after == before + ['\''] + (d + ['\''] + after);
    if Contains(before + Quote('\'', v) + after, w) {
      SplitContains(before, '\'', d + ['\''] + after, w);
      SplitContains(d, '\'', after, w);
      DoubledContains('\'', v, w);
    }
  }

  lemma TagChars(n: nat)
    ensures TagOf(n) != "" && TagOf(n)[0] == '$' && '\'' !in TagOf(n) && '\n' !in TagOf(n)
  {
    UnderscoresChars(n);
  }

  /** One stretch of fixed text and one literal, in front of something the tag already avoids. */
  lemma Stretch(text: string, v: string, after: string, tag: string)
    requires tag != "" && tag[0] == '$' && '\'' !in tag && '$' !in text
    requires !Contains(v, tag) && !Contains(after, tag)
    ensures !Contains(text + Quote('\'', v) + after, tag)
  {
    NoDollar(text, tag);
    LiteralSplits(text, v, after, tag);
  }

  lemma CloseAvoidsTag(close: string, tag: string)
    requires tag != "" && tag[0] == '$' && '\n' !in tag && '$' !in close
    ensures !Contains(close + "\n" + tag[..|tag| - 1], tag)
  {
    var tail := tag[..|tag| - 1];
    NoDollar(close, tag);
    FitsIn(tail, tag);
    if Contains(close + ['\n'] + tail, tag) {
      SplitContains(close, '\n', tail, tag);
    }
  }

  /** The tag does not occur in the body, nor across its end into the closing delimiter. */
  lemma BodyAvoidsTag(text: DoText, table: string, column: string, tag: string)
    requires Dollarless(text) && !Contains(table, tag) && !Contains(column, tag)
    requires tag != "" && tag[0] == '$' && '\'' !in tag && '\n' !in tag
    ensures !Contains(DoBody(text, table, column) + tag[..|tag| - 1], tag)
  {
    var tail := tag[..|tag| - 1];
    CloseAvoidsTag(text.close, tag);
    var s5 := text.close + "\n" + tail;
    Stretch(text.execute, table, s5, tag);
    var s4 := text.execute + Quote('\'', table) + s5;
    Stretch(text.comma, column, s4, tag);
    var s3 := text.comma + Quote('\'', column) + s4;
    Stretch(text.raise, table, s3, tag);
    var s2 := text.raise + Quote('\'', table) + s3;
    Stretch(text.onColumn, column, s2, tag);
    var s1 := text.onColumn + Quote('\'', column) + s2;
    Stretch(text.start, table, s1, tag);
    BodyParts(text, table, column, tail);
  }

  lemma BodyParts(text: DoText, table: string, column: string, tail: string)
    ensures DoBody(text, table, column) + tail
            == text.start + Quote('\'', table) + (text.onColumn + Quote('\'', column) + (text.raise + Quote('\'', table)
               + (text.comma + Quote('\'', column) + (text.execute + Quote('\'', table) + (text.close + "\n" + tail)))))
  {
    var q5 := text.close + "\n";
    var q4 := text.execute + Quote('\'', table) + q5;
    var q3 := text.comma + Quote('\'', column) + q4;
    var q2 := text.raise + Quote('\'', table) + q3;
    Onward(text.execute, Quote('\'', table), q5, tail);
    Onward(text.comma, Quote('\'', column), q4, tail);
    Onward(text.raise, Quote('\'', table), q3, tail);
    Onward(text.onColumn, Quote('\'', column), q2, tail);
    Onward(text.start, Quote('\'', table), text.onColumn + Quote('\'', column) + q2, tail);
  }

  lemma Onward(a: string, b: string, c: string, tail: string)
    ensures (a + b + c) + tail == a + b + (c + tail)
  {
  }

  lemma {:induction false} ContainsAt(s: string, w: string, i: nat)
    requires i <= |s| && w <= s[i..]
    ensures Contains(s, w)
  {
    if i > 0 {
      assert s[1..][i - 1..] == s[i..];
      ContainsAt(s[1..], w, i - 1);
    }
  }

  lemma EndsAtTag(text: DoText, table: string, column: string, n: nat, rest: string, i: nat)
    requires Dollarless(text) && !Contains(table, TagOf(n)) && !Contains(column, TagOf(n)) && i < |DoBody(text, table, column)|
    ensures !(TagOf(n) <= (DoBody(text, table, column) + TagOf(n) + rest)[i..])
  {
    TagChars(n);
    BodyAvoidsTag(text, table, column, TagOf(n));
    NotBefore(DoBody(text, table, column), TagOf(n), rest, i);
  }

  lemma NotBefore(body: string, tag: string, rest: string, i: nat)
    requires tag != "" && i < |body| && !Contains(body + tag[..|tag| - 1], tag)
    ensures !(tag <= (body + tag + rest)[i..])
  {
    var tail, whole := tag[..|tag| - 1], body + tag + rest;
    if tag <= whole[i..] {
      assert (body + tail)[i..][..|tag|] == whole[i..][..|tag|];
      ContainsAt(body + tail, tag, i);
    }
  }

  /** The opening delimiter's first repetition is the closing one: the server reads exactly the body. */
  lemma DoBlockEndsAtItsOwnTag(table: string, column: string, n: nat, rest: string, i: nat)
    requires !Collides([table, column], TagOf(n)) && i < |DoBody(BlockText(), table, column)|
    ensures !(TagOf(n) <= (DoBody(BlockText(), table, column) + TagOf(n) + rest)[i..])
  {
    BlockTextDollarless();
    var values := [table, column];
    assert !Contains(values[0], TagOf(n)) && !Contains(values[1], TagOf(n));
    EndsAtTag(BlockText(), table, column, n, rest, i);
  }
}
