/**
 Command lines: a header of quoted tokens, and a body after the first line break.  The tokenizer is a
 character loop; what it accepts is given independently by a grammar of pieces.
*/
module CommandHeader {
  import opened Wrappers

  const MAX_HEADER_BYTES := 4 * 1024
  const MAX_BODY_BYTES := 28 * 1024
  const MAX_ARGUMENTS := 16

  datatype Quote = Single | Double

  datatype HeaderError = InputInvalid | HeaderInvalid

  // ---------- The tokenizer ----------

  datatype Scan = Scan(tokens: seq<string>, token: string, quote: Option<Quote>, active: bool)

  const START := Scan([], "", None, false)

  predicate IsBlank(c: char) {
    c == ' ' || c == '\t'
  }

  function Step(s: Scan, c: char): Scan {
    if s.quote.None? && IsBlank(c) then
      if s.active then Scan(s.tokens + [s.token], "", None, false) else s
    else if c == '\'' && s.quote != Some(Double) then
      s.(quote := if s.quote == Some(Single) then None else Some(Single), active := true)
    else if c == '\"' && s.quote != Some(Single) then
      s.(quote := if s.quote == Some(Double) then None else Some(Double), active := true)
    else s.(token := s.token + [c], active := true)
  }

  function Run(s: Scan, text: string): Scan
    decreases |text|
  {
    if text == "" then s else Run(Step(s, text[0]), text[1..])
  }

  function Flush(s: Scan): Result<seq<string>, HeaderError> {
    if s.quote.Some? then Err(HeaderInvalid)
    else Ok(if s.active then s.tokens + [s.token] else s.tokens)
  }

  function Tokenize(header: string): Result<seq<string>, HeaderError> {
    Flush(Run(START, header))
  }

  /** UTF-8 length of one character. */
  function Width(c: char): nat {
    var code := c as int;
    if code < 0x80 then 1 else if code < 0x800 then 2 else if code < 0x1_0000 then 3 else 4
  }

  /** One byte after the first of a longer encoding. */
  predicate Continues(b: int) {
    0x80 <= b <= 0xBF
  }

  /** The encodings of a character in UTF-8, the shortest only, as RFC 3629 has them. */
  ghost predicate Encodes(bytes: seq<int>, c: char) {
    var code := c as int;
    match |bytes|
    case 1 => 0 <= bytes[0] <= 0x7F && code == bytes[0]
    case 2 => 0xC2 <= bytes[0] <= 0xDF && Continues(bytes[1]) && code == (bytes[0] - 0xC0) * 0x40 + (bytes[1] - 0x80)
    case 3 =>
      0xE0 <= bytes[0] <= 0xEF && Continues(bytes[1]) && Continues(bytes[2]) && (bytes[0] == 0xE0 ==> bytes[1] >= 0xA0)
      && code == (bytes[0] - 0xE0) * 0x1000 + (bytes[1] - 0x80) * 0x40 + (bytes[2] - 0x80)
    case 4 =>
      0xF0 <= bytes[0] <= 0xF4 && Continues(bytes[1]) && Continues(bytes[2]) && Continues(bytes[3])
      && (bytes[0] == 0xF0 ==> bytes[1] >= 0x90)
      && code == (bytes[0] - 0xF0) * 0x4_0000 + (bytes[1] - 0x80) * 0x1000 + (bytes[2] - 0x80) * 0x40 + (bytes[3] - 0x80)
    case _ => false
  }

  ghost function Encoding(c: char): seq<int> {
    var code := c as int;
    if code < 0x80 then [code]
    else if code < 0x800 then [0xC0 + code / 0x40, 0x80 + code % 0x40]
    else if code < 0x1_0000 then [0xE0 + code / 0x1000, 0x80 + code / 0x40 % 0x40, 0x80 + code % 0x40]
    else [0xF0 + code / 0x4_0000, 0x80 + code / 0x1000 % 0x40, 0x80 + code / 0x40 % 0x40, 0x80 + code % 0x40]
  }

  lemma EncodingFits(c: char)
    ensures Encodes(Encoding(c), c) && |Encoding(c)| == Width(c)
  {
    var code := c as int;
    if 0x800 <= code {
      SixBits(code);
    }
  }

  lemma SixBits(code: int)
    requires 0x800 <= code < 0x11_0000
    ensures code == code / 0x1000 * 0x1000 + code / 0x40 % 0x40 * 0x40 + code % 0x40
    ensures code == code / 0x4_0000 * 0x4_0000 + code / 0x1000 % 0x40 * 0x1000 + code / 0x40 % 0x40 * 0x40 + code % 0x40
  {
    assert code / 0x1000 == code / 0x40 / 0x40 && code / 0x4_0000 == code / 0x1000 / 0x40;
  }

  lemma EncodingLength(bytes: seq<int>, c: char)
    requires Encodes(bytes, c)
    ensures |bytes| == Width(c)
  {
  }

  /** The width of a character is the length of its encoding, the only one it has. */
  lemma WidthExactly(c: char)
    ensures Encodes(Encoding(c), c) && |Encoding(c)| == Width(c)
    ensures forall bytes :: Encodes(bytes, c) ==> |bytes| == Width(c)
  {
    EncodingFits(c);
    forall bytes | Encodes(bytes, c) ensures |bytes| == Width(c) {
      EncodingLength(bytes, c);
    }
  }

  /** UTF-8 length of a text. */
  function ByteLength(text: string): nat {
    if text == "" then 0 else ByteLength(text[..|text| - 1]) + Width(text[|text| - 1])
  }

  lemma ByteLengthSnoc(text: string, c: char)
    ensures ByteLength(text + [c]) == ByteLength(text) + Width(c)
  {
    assert (text + [c])[..|text + [c]| - 1] == text;
  }

  /**
   Tokenizes a header that is within the limit; the limit on a single token is checked along the way and
   can then never be exceeded.
  */
  method TokenizeHeader(header: string) returns (r: Result<seq<string>, HeaderError>)
    requires ByteLength(header) <= MAX_HEADER_BYTES
    ensures r == Tokenize(header)
  {
    var tokens: seq<string>, token, active := [], "", false;
    var quote: Option<Quote> := None;
    for i := 0 to |header|
      invariant Run(START, header) == Run(Scan(tokens, token, quote, active), header[i..])
      invariant ByteLength(token) <= ByteLength(header[..i])
    {
      var c := header[i];
      assert header[i..][1..] == header[i + 1..];
      assert header[..i + 1] == header[..i] + [c];
      ByteLengthSnoc(header[..i], c);
      ByteLengthMonotone(header, i + 1);
      if quote.None? && IsBlank(c) {
        if active {
          tokens := tokens + [token];
          token := "";
          active := false;
        }
      } else if c == '\'' && quote != Some(Double) {
        quote := if quote == Some(Single) then None else Some(Single);
        active := true;
      } else if c == '\"' && quote != Some(Single) {
        quote := if quote == Some(Double) then None else Some(Double);
        active := true;
      } else {
        ByteLengthSnoc(token, c);
        token := token + [c];
        active := true;
        if ByteLength(token) > MAX_HEADER_BYTES {
          return Err(HeaderInvalid);
        }
      }
    }
    r := Flush(Scan(tokens, token, quote, active));
  }

  lemma {:induction false} ByteLengthMonotone(text: string, n: nat)
    requires n <= |text|
    ensures ByteLength(text[..n]) <= ByteLength(text)
    decreases |text|
  {
    if n < |text| {
      var shorter := text[..|text| - 1];
      assert shorter[..n] == text[..n];
      ByteLengthMonotone(shorter, n);
    } else {
      assert text[..n] == text;
    }
  }

  // ---------- The grammar ----------

  /** A header is a row of blanks, plain characters and quoted stretches. */
  datatype Piece = Blank(blank: char) | Plain(plain: char) | Quoted(quote: Quote, text: string)

  function Mark(quote: Quote): char {
    if quote.Single? then '\'' else '\"'
  }

  predicate PieceValid(p: Piece) {
    match p
    case Blank(c) => IsBlank(c)
    case Plain(c) => !IsBlank(c) && c != '\'' && c != '\"'
    case Quoted(quote, text) => Mark(quote) !in text
  }

  predicate PiecesValid(ps: seq<Piece>) {
    forall i :: 0 <= i < |ps| ==> PieceValid(ps[i])
  }

  function PieceText(p: Piece): string {
    match p
    case Blank(c) => [c]
    case Plain(c) => [c]
    case Quoted(quote, text) => [Mark(quote)] + text + [Mark(quote)]
  }

  function Text(ps: seq<Piece>): string {
    if ps == [] then "" else PieceText(ps[0]) + Text(ps[1..])
  }

  /** What a piece adds to its token. */
  function Content(p: Piece): string {
    match p
    case Blank(_) => ""
    case Plain(c) => [c]
    case Quoted(_, text) => text
  }

  function Contents(ps: seq<Piece>): string {
    if ps == [] then "" else Content(ps[0]) + Contents(ps[1..])
  }

  /** The number of pieces up to the next blank. */
  function WordLength(ps: seq<Piece>): (n: nat)
    ensures n <= |ps|
  {
    if ps == [] || ps[0].Blank? then 0 else 1 + WordLength(ps[1..])
  }

  /** The tokens of a row of pieces: each stretch between blanks is one token. */
  function Words(ps: seq<Piece>): seq<string> {
    if ps == [] then []
    else if ps[0].Blank? then Words(ps[1..])
    else
      var n := WordLength(ps);
      [Contents(ps[..n])] + Words(ps[n..])
  }

  // ---------- The tokenizer reads the grammar ----------

  lemma {:induction false} RunSplits(s: Scan, a: string, b: string)
    ensures Run(s, a + b) == Run(Run(s, a), b)
    decreases |a|
  {
    if a == "" {
      assert a + b == b;
    } else {
      assert (a + b)[0] == a[0] && (a + b)[1..] == a[1..] + b;
      RunSplits(Step(s, a[0]), a[1..], b);
    }
  }

  lemma {:induction false} RunQuoted(s: Scan, quote: Quote, text: string)
    requires s.quote == Some(quote) && Mark(quote) !in text
    ensures Run(s, text) == s.(token := s.token + text, active := text != "" || s.active)
    decreases |text|
  {
    if text == "" {
      assert s.token + text == s.token;
    } else {
      RunQuoted(Step(s, text[0]), quote, text[1..]);
      assert s.token + [text[0]] + text[1..] == s.token + text;
    }
  }

  function Absorb(s: Scan, p: Piece): Scan {
    if p.Blank? then if s.active then Scan(s.tokens + [s.token], "", None, false) else s
    else Scan(s.tokens, s.token + Content(p), None, true)
  }

  lemma RunOne(s: Scan, c: char)
    ensures Run(s, [c]) == Step(s, c)
  {
    assert [c][1..] == "";
    assert Run(Step(s, c), "") == Step(s, c);
  }

  lemma RunPiece(s: Scan, p: Piece)
    requires s.quote.None? && PieceValid(p)
    ensures Run(s, PieceText(p)) == Absorb(s, p)
  {
    match p
    case Quoted(quote, text) =>
      var mark := [Mark(quote)];
      RunSplits(s, mark + text, mark);
      RunSplits(s, mark, text);
      RunOne(s, Mark(quote));
      var inside := Step(s, Mark(quote));
      RunQuoted(inside, quote, text);
      RunOne(Run(inside, text), Mark(quote));
    case Blank(c) => RunOne(s, c);
    case Plain(c) => RunOne(s, c);
  }

  function AbsorbAll(s: Scan, ps: seq<Piece>): Scan
    decreases |ps|
  {
    if ps == [] then s else AbsorbAll(Absorb(s, ps[0]), ps[1..])
  }

  lemma {:induction false} RunPieces(s: Scan, ps: seq<Piece>)
    requires s.quote.None? && PiecesValid(ps)
    ensures Run(s, Text(ps)) == AbsorbAll(s, ps)
    decreases |ps|
  {
    if ps != [] {
      RunSplits(s, PieceText(ps[0]), Text(ps[1..]));
      RunPiece(s, ps[0]);
      RunPieces(Absorb(s, ps[0]), ps[1..]);
    }
  }

  /** The words of what is left, when a token may already have begun. */
  function WordsAfter(s: Scan, ps: seq<Piece>): seq<string> {
    if s.active then s.tokens + [s.token + Contents(ps[..WordLength(ps)])] + Words(ps[WordLength(ps)..])
    else s.tokens + Words(ps)
  }

  lemma {:induction false} AbsorbedWords(s: Scan, ps: seq<Piece>)
    requires s.quote.None? && (!s.active ==> s.token == "")
    ensures AbsorbAll(s, ps).quote.None?
    ensures Flush(AbsorbAll(s, ps)) == Ok(WordsAfter(s, ps))
    decreases |ps|
  {
    if ps == [] {
      assert ps[..0] == [] && ps[0..] == [];
      assert s.token + Contents([]) == s.token;
      assert s.tokens + Words([]) == s.tokens && s.tokens + [s.token] + Words([]) == s.tokens + [s.token];
    } else {
      var t := Absorb(s, ps[0]);
      AbsorbedWords(t, ps[1..]);
      NextWord(s, ps);
    }
  }

  lemma NextWord(s: Scan, ps: seq<Piece>)
    requires ps != [] && s.quote.None? && (!s.active ==> s.token == "")
    ensures WordsAfter(Absorb(s, ps[0]), ps[1..]) == WordsAfter(s, ps)
  {
    if ps[0].Blank? {
      if s.active {
        assert ps[..0] == [] && ps[0..] == ps;
        assert s.token + "" == s.token;
      }
    } else {
      WordGrows(ps);
      if s.active {
        JoinedToken(s.token, Content(ps[0]), Contents(ps[1..][..WordLength(ps[1..])]));
      } else {
        assert "" + Content(ps[0]) == Content(ps[0]);
        assert s.tokens + ([Contents(ps[..WordLength(ps)])] + Words(ps[WordLength(ps)..]))
            == s.tokens + [Contents(ps[..WordLength(ps)])] + Words(ps[WordLength(ps)..]);
      }
    }
  }

  lemma JoinedToken(a: string, b: string, c: string)
    ensures (a + b) + c == a + (b + c)
  {
  }

  /** A piece that is no blank comes first in its word. */
  lemma WordGrows(ps: seq<Piece>)
    requires ps != [] && !ps[0].Blank?
    ensures var n, m := WordLength(ps), WordLength(ps[1..]);
      && ps[n..] == ps[1..][m..]
      && Contents(ps[..n]) == Content(ps[0]) + Contents(ps[1..][..m])
  {
    var n, m := WordLength(ps), WordLength(ps[1..]);
    assert ps[..n][1..] == ps[1..][..m];
  }

  /** Whatever row of pieces a header consists of, the tokenizer returns its words. */
  lemma PiecesTokenize(ps: seq<Piece>)
    requires PiecesValid(ps)
    ensures Tokenize(Text(ps)) == Ok(Words(ps))
  {
    RunPieces(START, ps);
    AbsorbedWords(START, ps);
    assert [] + Words(ps) == Words(ps);
  }

  // ---------- Every accepted header is a row of pieces ----------

  /** The part of a header that has been read: pieces, and perhaps an open quotation after them. */
  predicate ReadAs(text: string, ps: seq<Piece>, quote: Option<Quote>, open: string) {
    PiecesValid(ps) && ReadText(text, Text(ps), quote, open)
  }

  predicate ReadText(text: string, read: string, quote: Option<Quote>, open: string) {
    match quote
    case None => text == read && open == ""
    case Some(q) => text == read + [Mark(q)] + open && Mark(q) !in open
  }

  lemma {:induction false} TextSnoc(ps: seq<Piece>, p: Piece)
    ensures Text(ps + [p]) == Text(ps) + PieceText(p)
    decreases |ps|
  {
    if ps == [] {
      assert ps + [p] == [p] && [p][1..] == [];
      assert Text([p]) == PieceText(p) + "";
    } else {
      assert (ps + [p])[0] == ps[0] && (ps + [p])[1..] == ps[1..] + [p];
      TextSnoc(ps[1..], p);
    }
  }

  lemma RunSnoc(s: Scan, text: string, c: char)
    ensures Run(s, text + [c]) == Step(Run(s, text), c)
  {
    RunSplits(s, text, [c]);
    RunOne(Run(s, text), c);
  }

  /** Outside of quotations, a character is a piece of its own or opens a quotation. */
  lemma ReadOutside(text: string, s: Scan, ps: seq<Piece>, c: char) returns (more: seq<Piece>)
    requires ReadAs(text, ps, None, "") && s.quote.None?
    ensures ReadAs(text + [c], more, Step(s, c).quote, "")
  {
    if c == '\'' || c == '\"' {
      more := ps;
      assert text + [c] == Text(ps) + [c] + "";
    } else {
      var p := if IsBlank(c) then Blank(c) else Plain(c);
      TextSnoc(ps, p);
      more := ps + [p];
    }
  }

  lemma Reassociate(a: string, b: string, c: string, d: string)
    ensures a + b + c + d == a + (b + c + d) && a + b + c + d == a + b + (c + d)
  {
  }

  lemma CloseQuotation(text: string, ps: seq<Piece>, q: Quote, open: string)
    requires ReadAs(text, ps, Some(q), open)
    ensures ReadAs(text + [Mark(q)], ps + [Quoted(q, open)], None, "")
  {
    TextSnoc(ps, Quoted(q, open));
    Reassociate(Text(ps), [Mark(q)], open, [Mark(q)]);
  }

  lemma ExtendQuotation(text: string, ps: seq<Piece>, q: Quote, open: string, c: char)
    requires ReadAs(text, ps, Some(q), open) && c != Mark(q)
    ensures ReadAs(text + [c], ps, Some(q), open + [c])
  {
    Reassociate(Text(ps), [Mark(q)], open, [c]);
  }

  /** Inside a quotation, a character is quoted or ends it. */
  lemma ReadInside(text: string, s: Scan, ps: seq<Piece>, q: Quote, open: string, c: char)
    returns (more: seq<Piece>, still: string)
    requires ReadAs(text, ps, Some(q), open) && s.quote == Some(q)
    ensures ReadAs(text + [c], more, Step(s, c).quote, still)
  {
    if c == Mark(q) {
      more, still := ps + [Quoted(q, open)], "";
      CloseQuotation(text, ps, q, open);
    } else {
      more, still := ps, open + [c];
      ExtendQuotation(text, ps, q, open, c);
    }
  }

  lemma {:induction false} EveryHeaderIsRead(text: string) returns (ps: seq<Piece>, open: string)
    ensures ReadAs(text, ps, Run(START, text).quote, open)
    decreases |text|
  {
    if text == "" {
      return [], "";
    }
    var before, c := text[..|text| - 1], text[|text| - 1];
    ps, open := EveryHeaderIsRead(before);
    assert text == before + [c];
    RunSnoc(START, before, c);
    var s := Run(START, before);
    if s.quote.None? {
      ps := ReadOutside(before, s, ps, c);
    } else {
      ps, open := ReadInside(before, s, ps, s.quote.value, open, c);
    }
  }

  ghost predicate Means(header: string, ps: seq<Piece>, tokens: seq<string>) {
    PiecesValid(ps) && Text(ps) == header && Words(ps) == tokens
  }

  /** The tokenizer accepts a header, with some tokens, exactly if it is a row of pieces with these words. */
  lemma TokenizeIsGrammar(header: string, tokens: seq<string>)
    ensures Tokenize(header) == Ok(tokens) <==> exists ps :: Means(header, ps, tokens)
  {
    if Tokenize(header) == Ok(tokens) {
      var ps, open := EveryHeaderIsRead(header);
      PiecesTokenize(ps);
      assert Means(header, ps, tokens);
    }
    if ps :| Means(header, ps, tokens) {
      PiecesTokenize(ps);
    }
  }

  /** A header that ends inside a quotation is refused. */
  lemma UnbalancedIsRefused(ps: seq<Piece>, quote: Quote, open: string)
    requires PiecesValid(ps) && Mark(quote) !in open
    ensures Tokenize(Text(ps) + [Mark(quote)] + open) == Err(HeaderInvalid)
  {
    RunPieces(START, ps);
    AbsorbedWords(START, ps);
    var read := AbsorbAll(START, ps);
    RunSplits(START, Text(ps) + [Mark(quote)], open);
    RunSplits(START, Text(ps), [Mark(quote)]);
    RunOne(read, Mark(quote));
    RunQuoted(Step(read, Mark(quote)), quote, open);
  }

  // ---------- Quoting ----------

  /** The pieces that stand for a token: each single quote between double quotes, all else between single ones. */
  function QuotePieces(token: string): seq<Piece> {
    if token == "" then []
    else
      var q := if token[0] == '\'' then Double else Single;
      [Quoted(q, [token[0]])] + QuotePieces(token[1..])
  }

  function TokenPieces(token: string): seq<Piece> {
    [Quoted(Single, "")] + QuotePieces(token)
  }

  function QuoteToken(token: string): string {
    Text(TokenPieces(token))
  }

  function RowPieces(tokens: seq<string>): seq<Piece> {
    if tokens == [] then []
    else if |tokens| == 1 then TokenPieces(tokens[0])
    else TokenPieces(tokens[0]) + ([Blank(' ')] + RowPieces(tokens[1..]))
  }

  /** The quoted forms of the tokens, joined by blanks. */
  function QuoteAll(tokens: seq<string>): string {
    if tokens == [] then ""
    else if |tokens| == 1 then QuoteToken(tokens[0])
    else QuoteToken(tokens[0]) + (" " + QuoteAll(tokens[1..]))
  }

  predicate NoBlank(ps: seq<Piece>) {
    forall i :: 0 <= i < |ps| ==> !ps[i].Blank?
  }

  lemma {:induction false} QuotePiecesMean(token: string)
    ensures PiecesValid(QuotePieces(token)) && NoBlank(QuotePieces(token))
    ensures Contents(QuotePieces(token)) == token
    decreases |token|
  {
    if token != "" {
      QuotePiecesMean(token[1..]);
      var rest := QuotePieces(token[1..]);
      assert QuotePieces(token)[1..] == rest;
      assert forall i :: 1 <= i < |QuotePieces(token)| ==> QuotePieces(token)[i] == rest[i - 1];
      assert [token[0]] + token[1..] == token;
    }
  }

  lemma TokenPiecesMean(token: string)
    ensures PiecesValid(TokenPieces(token)) && NoBlank(TokenPieces(token))
    ensures Contents(TokenPieces(token)) == token
  {
    QuotePiecesMean(token);
    assert TokenPieces(token)[1..] == QuotePieces(token);
    assert "" + Contents(QuotePieces(token)) == token;
  }

  lemma {:induction false} TextJoin(a: seq<Piece>, b: seq<Piece>)
    ensures Text(a + b) == Text(a) + Text(b)
    decreases |a|
  {
    if a == [] {
      assert a + b == b;
    } else {
      assert (a + b)[0] == a[0] && (a + b)[1..] == a[1..] + b;
      TextJoin(a[1..], b);
    }
  }

  /** A row that begins with non-blank pieces, followed by nothing or a blank. */
  lemma {:induction false} WordThen(a: seq<Piece>, b: seq<Piece>)
    requires NoBlank(a) && (b == [] || b[0].Blank?)
    ensures WordLength(a + b) == |a|
    decreases |a|
  {
    if a == [] {
      assert a + b == b;
    } else {
      assert (a + b)[1..] == a[1..] + b;
      WordThen(a[1..], b);
    }
  }

  /** A word followed by a blank and more words. */
  lemma WordsThen(a: seq<Piece>, rest: seq<Piece>)
    requires NoBlank(a) && a != []
    ensures Words(a + ([Blank(' ')] + rest)) == [Contents(a)] + Words(rest)
    ensures Words(a) == [Contents(a)]
  {
    var b := [Blank(' ')] + rest;
    WordThen(a, b);
    assert (a + b)[0] == a[0] && (a + b)[..|a|] == a && (a + b)[|a|..] == b;
    assert b[1..] == rest && Words(b) == Words(rest);
    WordThen(a, []);
    assert a + [] == a && a[..|a|] == a && a[|a|..] == [];
    assert [Contents(a)] + Words([]) == [Contents(a)];
  }

  lemma {:induction false} RowIsValid(tokens: seq<string>)
    ensures PiecesValid(RowPieces(tokens))
    decreases |tokens|
  {
    if tokens != [] {
      TokenPiecesMean(tokens[0]);
      RowIsValid(tokens[1..]);
    }
  }

  lemma {:induction false} RowWords(tokens: seq<string>)
    ensures Words(RowPieces(tokens)) == tokens
    decreases |tokens|
  {
    if tokens != [] {
      TokenPiecesMean(tokens[0]);
      WordsThen(TokenPieces(tokens[0]), RowPieces(tokens[1..]));
      if |tokens| == 1 {
        assert tokens == [tokens[0]];
      } else {
        RowWords(tokens[1..]);
        assert tokens == [tokens[0]] + tokens[1..];
      }
    }
  }

  lemma {:induction false} RowText(tokens: seq<string>)
    ensures Text(RowPieces(tokens)) == QuoteAll(tokens)
    decreases |tokens|
  {
    if |tokens| > 1 {
      var rest := RowPieces(tokens[1..]);
      RowText(tokens[1..]);
      TextJoin(TokenPieces(tokens[0]), [Blank(' ')] + rest);
      BlankText(rest);
    }
  }

  lemma BlankText(rest: seq<Piece>)
    ensures Text([Blank(' ')] + rest) == " " + Text(rest)
  {
    assert ([Blank(' ')] + rest)[1..] == rest;
  }

  /** Every list of tokens, with any characters in them, is read back from its quoted form. */
  lemma QuotingIsComplete(tokens: seq<string>)
    ensures Tokenize(QuoteAll(tokens)) == Ok(tokens)
  {
    RowIsValid(tokens);
    RowWords(tokens);
    RowText(tokens);
    PiecesTokenize(RowPieces(tokens));
  }

  // ---------- Whole command inputs ----------

  datatype Command = Command(name: string, arguments: seq<string>, body: Option<string>)

  /** The position of the first line feed, or the length of the input. */
  function FirstBreak(input: string): (k: nat)
    ensures k <= |input|
    ensures k < |input| ==> input[k] == '\n'
    ensures '\n' !in input[..k]
  {
    if input == "" || input[0] == '\n' then 0
    else
      assert input[..1 + FirstBreak(input[1..])] == [input[0]] + input[1..][..FirstBreak(input[1..])];
      1 + FirstBreak(input[1..])
  }

  function HeaderOf(input: string): string {
    var k := FirstBreak(input);
    if 0 < k < |input| && input[k - 1] == '\r' then input[..k - 1] else input[..k]
  }

  function BodyOf(input: string): string {
    var k := FirstBreak(input);
    if k < |input| then input[k + 1..] else ""
  }

  function LowerLetter(c: char): char {
    if 'A' <= c <= 'Z' then ((c as int) - ('A' as int) + ('a' as int)) as char else c
  }

  function LowerCase(name: string): string {
    seq(|name|, i requires 0 <= i < |name| => LowerLetter(name[i]))
  }

  /** Shorter than two UTF-16 code units. */
  predicate TooShort(header: string) {
    header == "" || (|header| == 1 && header[0] as int < 0x1_0000)
  }

  function Parse(input: string): Result<Command, HeaderError> {
    var header, body := HeaderOf(input), BodyOf(input);
    if TooShort(header) || ByteLength(header) > MAX_HEADER_BYTES || ByteLength(body) > MAX_BODY_BYTES then Err(InputInvalid)
    else
      var tokens :- Tokenize(header);
      if |tokens| < 1 || |tokens| > MAX_ARGUMENTS + 1 then Err(HeaderInvalid)
      else if |tokens[0]| < 2 || tokens[0][0] != '/' then Err(HeaderInvalid)
      else Ok(Command(LowerCase(tokens[0][1..]), tokens[1..], if body == "" then None else Some(body)))
  }

  predicate OneLine(text: string) {
    '\n' !in text
  }

  lemma {:induction false} QuotePiecesOneLine(token: string)
    requires OneLine(token)
    ensures OneLine(Text(QuotePieces(token)))
    decreases |token|
  {
    if token != "" {
      QuotePiecesOneLine(token[1..]);
      assert QuotePieces(token)[1..] == QuotePieces(token[1..]);
    }
  }

  lemma {:induction false} QuotePiecesEnd(token: string)
    requires token != ""
    ensures var text := Text(QuotePieces(token)); text != "" && text[|text| - 1] != '\r'
    decreases |token|
  {
    assert QuotePieces(token)[1..] == QuotePieces(token[1..]);
    if |token| > 1 {
      QuotePiecesEnd(token[1..]);
    }
  }

  lemma QuoteTokenShape(token: string)
    requires OneLine(token)
    ensures OneLine(QuoteToken(token)) && |QuoteToken(token)| >= 2 && QuoteToken(token)[|QuoteToken(token)| - 1] != '\r'
  {
    QuotePiecesOneLine(token);
    assert TokenPieces(token)[1..] == QuotePieces(token);
    if token != "" {
      QuotePiecesEnd(token);
    }
  }

  lemma {:induction false} QuoteAllShape(tokens: seq<string>)
    requires tokens != [] && forall i :: 0 <= i < |tokens| ==> OneLine(tokens[i])
    ensures var text := QuoteAll(tokens); OneLine(text) && |text| >= 2 && text[|text| - 1] != '\r'
    decreases |tokens|
  {
    QuoteTokenShape(tokens[0]);
    if |tokens| > 1 {
      QuoteAllShape(tokens[1..]);
      JoinedShape(QuoteToken(tokens[0]), QuoteAll(tokens[1..]));
    }
  }

  lemma JoinedShape(a: string, b: string)
    requires OneLine(a) && OneLine(b) && b != "" && b[|b| - 1] != '\r'
    ensures var text := a + (" " + b); OneLine(text) && |text| >= 2 && text[|text| - 1] != '\r'
  {
    var rest := " " + b;
    assert OneLine(rest) && rest[|rest| - 1] == b[|b| - 1];
    assert (a + rest)[|a + rest| - 1] == rest[|rest| - 1];
  }

  lemma {:induction false} BreakAfter(header: string, rest: string)
    requires OneLine(header) && (rest == "" || rest[0] == '\n')
    ensures FirstBreak(header + rest) == |header|
    decreases |header|
  {
    if header == "" {
      assert header + rest == rest;
    } else {
      assert (header + rest)[1..] == header[1..] + rest;
      BreakAfter(header[1..], rest);
    }
  }

  /**
   The header is the first line, without its line break, which is a line feed with or without a carriage return before
   it; the body is everything after that.
  */
  ghost predicate Splits(input: string, header: string, body: string) {
    OneLine(header)
    && if '\n' !in input then input == header && body == ""
       else
         || input == header + "\r\n" + body
         || (input == header + "\n" + body && (header == "" || header[|header| - 1] != '\r'))
  }

  lemma SplitsThere(input: string, header: string, body: string)
    requires Splits(input, header, body)
    ensures header == HeaderOf(input) && body == BodyOf(input)
  {
    if '\n' !in input {
      BreakAfter(input, "");
      assert input + "" == input && input[..|input|] == input;
    } else if input == header + "\r\n" + body {
      ReturnedBreak(header, body);
    } else {
      PlainBreak(header, body);
    }
  }

  lemma PlainBreak(header: string, body: string)
    requires OneLine(header) && (header == "" || header[|header| - 1] != '\r')
    ensures HeaderOf(header + "\n" + body) == header && BodyOf(header + "\n" + body) == body
  {
    var input := header + "\n" + body;
    assert input == header + ("\n" + body);
    BreakAfter(header, "\n" + body);
    assert input[..|header|] == header && input[|header| + 1..] == body;
  }

  lemma ReturnedBreak(header: string, body: string)
    requires OneLine(header)
    ensures HeaderOf(header + "\r\n" + body) == header && BodyOf(header + "\r\n" + body) == body
  {
    var input, line := header + "\r\n" + body, header + "\r";
    assert input == line + ("\n" + body);
    BreakAfter(line, "\n" + body);
    assert input[|header|] == '\r' && input[..|header|] == header && input[|line| + 1..] == body;
  }

  lemma SplitsSomewhere(input: string)
    ensures Splits(input, HeaderOf(input), BodyOf(input))
  {
    var k := FirstBreak(input);
    if k < |input| {
      assert input == input[..k] + "\n" + input[k + 1..];
      if k > 0 && input[k - 1] == '\r' {
        assert input == input[..k - 1] + "\r\n" + input[k + 1..];
      }
    } else {
      assert input[..k] == input;
    }
  }

  const UPPER := "ABCDEFGHIJKLMNOPQRSTUVWXYZ"
  const LOWER := "abcdefghijklmnopqrstuvwxyz"

  /** The same letter in lower case, or the same other character. */
  ghost predicate Lowered(c: char, d: char) {
    if c in UPPER then exists k :: 0 <= k < 26 && c == UPPER[k] && d == LOWER[k] else d == c
  }

  ghost predicate AllLowered(name: string, command: string) {
    |command| == |name| && forall i :: 0 <= i < |name| ==> Lowered(name[i], command[i])
  }

  lemma LettersAt(k: nat)
    requires k < 26
    ensures UPPER[k] as int == 'A' as int + k && LOWER[k] as int == 'a' as int + k
  {
  }

  lemma LetterExactly(c: char, d: char)
    ensures d == LowerLetter(c) <==> Lowered(c, d)
  {
    if 'A' <= c <= 'Z' {
      LettersAt(c as int - 'A' as int);
      assert UPPER[c as int - 'A' as int] == c;
    }
    forall k | 0 <= k < 26 ensures UPPER[k] as int == 'A' as int + k && LOWER[k] as int == 'a' as int + k {
      LettersAt(k);
    }
  }

  lemma LowerCaseExactly(name: string, command: string)
    ensures command == LowerCase(name) <==> AllLowered(name, command)
  {
    if |command| == |name| {
      forall i | 0 <= i < |name| ensures command[i] == LowerCase(name)[i] <==> Lowered(name[i], command[i]) {
        LetterExactly(name[i], command[i]);
      }
    }
  }

  /** A command line with these parts: lengths within the limits, and a first token that is a slash and a name. */
  ghost predicate Commands(header: string, body: string, command: Command) {
    && !TooShort(header) && ByteLength(header) <= 4096 && ByteLength(body) <= 28672
    && |command.arguments| <= 16
    && command.body == (if body == "" then None else Some(body))
    && exists name :: name != "" && AllLowered(name, command.name)
         && Tokenize(header) == Ok(["/" + name] + command.arguments)
  }

  /** An input is read as a command exactly if its first line commands it. */
  lemma ParseExactly(input: string, header: string, body: string, command: Command)
    requires Splits(input, header, body)
    ensures Parse(input) == Ok(command) <==> Commands(header, body, command)
    ensures Parse(input) == Err(InputInvalid) <==> TooShort(header) || ByteLength(header) > 4096 || ByteLength(body) > 28672
  {
    SplitsThere(input, header, body);
    if Tokenize(header).Ok? {
      var tokens := Tokenize(header).value;
      if Parse(input) == Ok(command) {
        var name := tokens[0][1..];
        assert tokens[0] == "/" + name && tokens == [tokens[0]] + tokens[1..];
        LowerCaseExactly(name, command.name);
      }
      if Commands(header, body, command) {
        var name :| name != "" && AllLowered(name, command.name) && Tokenize(header) == Ok(["/" + name] + command.arguments);
        assert tokens[0] == "/" + name && tokens[0][1..] == name && tokens[1..] == command.arguments;
        LowerCaseExactly(name, command.name);
      }
    }
  }

  /**
   A command written with quoted arguments and a body on the following lines is read back exactly, its name in lower
   case, whichever line break was used.
  */
  lemma CommandRoundTrip(name: string, command: string, arguments: seq<string>, lineBreak: string, body: string)
    requires name != "" && AllLowered(name, command) && OneLine(name)
    requires |arguments| <= MAX_ARGUMENTS && forall i :: 0 <= i < |arguments| ==> OneLine(arguments[i])
    requires lineBreak == "\n" || lineBreak == "\r\n"
    requires ByteLength(QuoteAll(["/" + name] + arguments)) <= MAX_HEADER_BYTES && ByteLength(body) <= MAX_BODY_BYTES
    ensures Parse(QuoteAll(["/" + name] + arguments) + lineBreak + body)
         == Ok(Command(command, arguments, if body == "" then None else Some(body)))
  {
    var tokens := ["/" + name] + arguments;
    var header, read := QuoteAll(tokens), Command(command, arguments, if body == "" then None else Some(body));
    assert tokens[0] == "/" + name && tokens[1..] == arguments;
    OneLineTokens(name, arguments);
    QuoteAllShape(tokens);
    QuotingIsComplete(tokens);
    var input := header + lineBreak + body;
    assert input[|header| + |lineBreak| - 1] == '\n';
    assert Splits(input, header, body);
    assert Commands(header, body, read);
    ParseExactly(input, header, body, read);
  }

  lemma OneLineTokens(name: string, arguments: seq<string>)
    requires OneLine(name) && forall i :: 0 <= i < |arguments| ==> OneLine(arguments[i])
    ensures forall i :: 0 <= i < |["/" + name] + arguments| ==> OneLine((["/" + name] + arguments)[i])
  {
  }
}
