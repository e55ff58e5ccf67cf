/** A quote-aware reading of generated SQL text, used to state what injection safety means
    for the compiler: a scanner that collapses every quoted token (a `"…"` identifier or a
    `'…'` string literal, with doubled quotes as escapes) to its opening quote character,
    and a description of generated text as a sequence of fragments (raw template text,
    quoted identifiers, quoted literals). */
module SqlLexer {
  import opened Text
  import opened Wrappers

  predicate IsQuote(c: char) {
    c == '\'' || c == '"'
  }

  predicate QuoteFree(s: string) {
    forall i :: 0 <= i < |s| ==> !IsQuote(s[i])
  }

  /** Scanner state: in SQL code, inside a token opened by `q`, or just after a `q` that
      either closes the token or starts an escaped `qq`. */
  datatype Mode = Code | Quoted(q: char) | Closed(q: char)

  function CodeStep(c: char): (string, Mode) {
    if IsQuote(c) then ([c], Quoted(c)) else ([c], Code)
  }

  function Step(c: char, m: Mode): (string, Mode) {
    match m
    case Code => CodeStep(c)
    case Quoted(q) => if c == q then ([], Closed(q)) else ([], Quoted(q))
    case Closed(q) => if c == q then ([], Quoted(q)) else CodeStep(c)
  }

  /** The characters of `s` outside quoted tokens, each token kept as its opening quote. */
  function Scan(s: string, m: Mode): (string, Mode)
    decreases |s|
  {
    if s == [] then ([], m)
    else
      var (o, m1) := Step(s[0], m);
      var (o2, m2) := Scan(s[1..], m1);
      (o + o2, m2)
  }

  /** The structure of SQL text: what remains when every quoted token is collapsed, or
      `None` when a token is left open. */
  function Skeleton(s: string): Option<string> {
    var (o, m) := Scan(s, Code);
    if m.Quoted? then None else Some(o)
  }

  lemma {:induction false} ScanAppend(a: string, b: string, m: Mode)
    ensures Scan(a + b, m) == (Scan(a, m).0 + Scan(b, Scan(a, m).1).0, Scan(b, Scan(a, m).1).1)
  {
    if a == [] {
      assert a + b == b;
      assert [] + Scan(b, m).0 == Scan(b, m).0;
    } else {
      assert (a + b)[0] == a[0];
      assert (a + b)[1..] == a[1..] + b;
      var (o, m1) := Step(a[0], m);
      ScanAppend(a[1..], b, m1);
      var (oa, ma) := Scan(a[1..], m1);
      assert Scan(a, m) == (o + oa, ma);
      var (ob, mb) := Scan(b, ma);
      assert Scan(a + b, m) == (o + (oa + ob), mb);
      assert o + (oa + ob) == (o + oa) + ob;
    }
  }

  lemma {:induction false} ScanQuoteFree(t: string)
    requires QuoteFree(t)
    ensures Scan(t, Code) == (t, Code)
  {
    if t != [] {
      assert QuoteFree(t[1..]) by {
        assert forall i :: 0 <= i < |t[1..]| ==> t[1..][i] == t[i + 1];
      }
      ScanQuoteFree(t[1..]);
      assert t == [t[0]] + t[1..];
    }
  }

  /** Inside a token, a doubled body never closes it. */
  lemma {:induction false} ScanDoubled(x: string, q: char)
    ensures Scan(Double(x, q), Quoted(q)) == ([], Quoted(q))
  {
    if x != [] {
      var rest := Double(x[1..], q);
      ScanDoubled(x[1..], q);
      if x[0] == q {
        ScanAppend([q, q], rest, Quoted(q));
        assert Scan([q, q], Quoted(q)) == ([], Quoted(q)) by {
          assert [q, q][1..] == [q];
          assert Scan([q], Closed(q)) == ([], Quoted(q)) by { assert [q][1..] == []; }
        }
      } else {
        ScanAppend([x[0]], rest, Quoted(q));
        assert [x[0]][1..] == [];
      }
    }
  }

  /** `q` + the body with every `q` doubled + `q`: one complete quoted token. */
  function QuotedToken(x: string, q: char): string {
    [q] + Double(x, q) + [q]
  }

  lemma ScanToken(x: string, q: char)
    requires IsQuote(q)
    ensures Scan(QuotedToken(x, q), Code) == ([q], Closed(q))
  {
    var body := Double(x, q);
    ScanAppend([q] + body, [q], Code);
    ScanAppend([q], body, Code);
    ScanDoubled(x, q);
    assert [q][1..] == [];
    assert [q] + [] == [q];
    assert Scan([q], Code) == ([q], Quoted(q));
    assert Scan([q] + body, Code) == ([q], Quoted(q));
    assert Scan([q], Quoted(q)) == ([], Closed(q));
  }

  lemma ScanAfterClose(s: string, q: char)
    requires s != [] && s[0] != q
    ensures Scan(s, Closed(q)) == Scan(s, Code)
  {
  }

  // ---------------------------------------------------------------- fragments

  /** A piece of generated text: template text, a double-quoted identifier, or a
      single-quoted string literal. */
  datatype Fragment = Raw(text: string) | Ident(name: string) | Lit(body: string)

  function FragmentText(f: Fragment): string {
    match f
    case Raw(t) => t
    case Ident(x) => QuotedToken(x, '"')
    case Lit(x) => QuotedToken(x, '\'')
  }

  /** What the scanner keeps of a fragment. */
  function FragmentShape(f: Fragment): string {
    match f
    case Raw(t) => t
    case Ident(_) => "\""
    case Lit(_) => "'"
  }

  function Render(fs: seq<Fragment>): string {
    if fs == [] then "" else FragmentText(fs[0]) + Render(fs[1..])
  }

  function Shape(fs: seq<Fragment>): string {
    if fs == [] then "" else FragmentShape(fs[0]) + Shape(fs[1..])
  }

  /** Template text holds no quote, and every token is followed by non-empty template text
      or ends the sequence, so no token can run into the next. */
  predicate Separated(fs: seq<Fragment>) {
    fs == [] ||
    ((fs[0].Raw? ==> QuoteFree(fs[0].text)) &&
     (!fs[0].Raw? && |fs| > 1 ==> fs[1].Raw? && fs[1].text != []) &&
     Separated(fs[1..]))
  }

  lemma {:induction false} RenderAppend(a: seq<Fragment>, b: seq<Fragment>)
    ensures Render(a + b) == Render(a) + Render(b)
    ensures Shape(a + b) == Shape(a) + Shape(b)
  {
    if a == [] {
      assert a + b == b;
    } else {
      assert (a + b)[0] == a[0];
      assert (a + b)[1..] == a[1..] + b;
      RenderAppend(a[1..], b);
    }
  }

  lemma {:induction false} SeparatedAppend(a: seq<Fragment>, b: seq<Fragment>)
    requires Separated(a) && Separated(b)
    requires a != [] && !a[|a| - 1].Raw? && b != [] ==> b[0].Raw? && b[0].text != []
    ensures Separated(a + b)
  {
    if a == [] {
      assert a + b == b;
    } else {
      assert (a + b)[0] == a[0];
      assert (a + b)[1..] == a[1..] + b;
      SeparatedAppend(a[1..], b);
      if |a| == 1 && b != [] { assert (a + b)[1] == b[0]; }
      if |a| > 1 { assert (a + b)[1] == a[1]; }
    }
  }

  lemma {:induction false} ScanSeparated(fs: seq<Fragment>)
    requires Separated(fs)
    ensures Scan(Render(fs), Code).0 == Shape(fs)
    ensures !Scan(Render(fs), Code).1.Quoted?
  {
    if fs != [] {
      var rest := Render(fs[1..]);
      ScanSeparated(fs[1..]);
      ScanAppend(FragmentText(fs[0]), rest, Code);
      match fs[0]
      case Raw(t) =>
        ScanQuoteFree(t);
      case Ident(x) =>
        ScanToken(x, '"');
        if |fs| > 1 {
          assert rest == fs[1].text + Render(fs[2..]);
          ScanAfterClose(rest, '"');
        }
      case Lit(x) =>
        ScanToken(x, '\'');
        if |fs| > 1 {
          assert rest == fs[1].text + Render(fs[2..]);
          ScanAfterClose(rest, '\'');
        }
    }
  }

  /** Text rendered from separated fragments scans to exactly their shape: every
      identifier and literal is one closed token, whatever its contents. */
  lemma SkeletonOfSeparated(fs: seq<Fragment>)
    requires Separated(fs)
    ensures Skeleton(Render(fs)) == Some(Shape(fs))
  {
    ScanSeparated(fs);
  }
}
