/** Quoting identifiers (R/dbQuoteIdentifier_PqConnection_Id.R, src/DbConnection.cpp:252-263) and taking
    them apart again (R/dbUnquoteIdentifier_PqConnection_SQL.R). */
module Identifier {
  import opened Base

  const QUOTE: char := '"'

  // ----- Quoting -----

  function Double(s: string): string {
    if s == "" then "" else (if s[0] == QUOTE then [QUOTE, QUOTE] else [s[0]]) + Double(s[1..])
  }

  /** PQescapeIdentifier. */
  function Quote(s: string): string {
    [QUOTE] + Double(s) + [QUOTE]
  }

  /** All components, quoted, with dots between them. */
  function QuoteId(components: seq<string>): string {
    if components == [] then ""
    else if |components| == 1 then Quote(components[0])
    else Quote(components[0]) + "." + QuoteId(components[1..])
  }

  // ----- The grammar, as the regular expression states it -----

  /** ([^"]|"")* */
  predicate Paired(body: string) {
    body == "" ||
    (if body[0] == QUOTE then |body| >= 2 && body[1] == QUOTE && Paired(body[2..]) else Paired(body[1..]))
  }

  predicate Bare(c: char) {
    c != QUOTE && c != '.' && c != ' '
  }

  /** One name: its text, and the part of it that a group captures. */
  datatype Name = Name(text: string, body: string)

  predicate IsName(name: Name) {
    && name.body != ""
    && (|| (name.text == [QUOTE] + name.body + [QUOTE] && Paired(name.body))
        || (name.text == name.body && forall k :: 0 <= k < |name.body| ==> Bare(name.body[k])))
  }

  /** Names that end in a dot, and perhaps a last one that does not. */
  datatype Parts = Parts(dotted: seq<Name>, last: Option<Name>)

  function Source(p: Parts): string
    decreases |p.dotted|
  {
    if p.dotted != [] then p.dotted[0].text + "." + Source(p.(dotted := p.dotted[1..]))
    else if p.last == None then "" else p.last.value.text
  }

  predicate WellFormed(p: Parts) {
    && (forall k :: 0 <= k < |p.dotted| ==> IsName(p.dotted[k]))
    && (p.last.Some? ==> IsName(p.last.value))
  }

  /** The whole text matches: at most two names with a dot, then possibly a last one. */
  predicate Accepts(x: string, p: Parts) {
    x == Source(p) && WellFormed(p) && |p.dotted| <= 2
  }

  // ----- Taking a text apart -----

  /** Position of the first quote that is not one of a pair, or the length. */
  function Close(s: string): (e: nat)
    ensures e <= |s|
    decreases |s|
  {
    if s == "" then 0
    else if s[0] != QUOTE then 1 + Close(s[1..])
    else if |s| >= 2 && s[1] == QUOTE then 2 + Close(s[2..])
    else 0
  }

  function BareRun(s: string): (e: nat)
    ensures e <= |s|
  {
    if s == "" || !Bare(s[0]) then 0 else 1 + BareRun(s[1..])
  }

  /** The name a text starts with, and what follows it. */
  function ReadName(x: string): Option<(Name, string)> {
    if x != "" && x[0] == QUOTE then
      var e := Close(x[1..]);
      if e == 0 || e == |x| - 1 then None else Some((Name(x[..e + 2], x[1..e + 1]), x[e + 2..]))
    else
      var e := BareRun(x);
      if e == 0 then None else Some((Name(x[..e], x[..e]), x[e..]))
  }

  /** The parts of a text with at most `dots` dotted names. */
  function Parse(x: string, dots: nat): Option<Parts>
    decreases dots
  {
    if x == "" then Some(Parts([], None))
    else
      var first := ReadName(x);
      if first == None then None
      else
        var (name, rest) := first.value;
        if rest == "" then Some(Parts([], Some(name)))
        else if rest[0] != '.' || dots == 0 then None
        else
          var more := Parse(rest[1..], dots - 1);
          if more == None then None else Some(more.value.(dotted := [name] + more.value.dotted))
  }

  /** Every pair of quotes becomes one. */
  function Undouble(s: string): string
    decreases |s|
  {
    if s == "" then ""
    else if s[0] == QUOTE && |s| >= 2 && s[1] == QUOTE then [QUOTE] + Undouble(s[2..])
    else [s[0]] + Undouble(s[1..])
  }

  /** A component that is absent is the empty string. */
  datatype Id = Id(catalog: string, schema: string, table: string)

  function IdOf(p: Parts): Id {
    var n := |p.dotted|;
    Id(if n >= 2 then Undouble(p.dotted[n - 2].body) else "",
       if n >= 1 then Undouble(p.dotted[n - 1].body) else "",
       if p.last.Some? then Undouble(p.last.value.body) else "")
  }

  /** dbUnquoteIdentifier: `None` where it stops with "Can't unquote". */
  function Unquote(x: string): Option<Id> {
    var p := Parse(x, 2);
    if p == None then None else Some(IdOf(p.value))
  }

  /** `as_table` keeps the components that are not empty. */
  function Components(id: Id): seq<string> {
    (if id.catalog == "" then [] else [id.catalog]) +
    (if id.schema == "" then [] else [id.schema]) +
    (if id.table == "" then [] else [id.table])
  }

  // ----- The grammar is unambiguous, and taking apart follows it -----

  lemma {:induction false} CloseOfPaired(body: string, rest: string)
    requires Paired(body) && (rest == "" || rest[0] != QUOTE)
    ensures Close(body + [QUOTE] + rest) == |body|
    decreases |body|
  {
    var s := body + [QUOTE] + rest;
    if body != "" {
      var u := if body[0] == QUOTE then 2 else 1;
      assert s[u..] == body[u..] + [QUOTE] + rest;
      CloseOfPaired(body[u..], rest);
    }
  }

  lemma {:induction false} PairedUpToClose(s: string)
    ensures Paired(s[..Close(s)])
    ensures Close(s) < |s| ==> s[Close(s)] == QUOTE
    decreases |s|
  {
    var e := Close(s);
    if s != "" && e > 0 {
      var u := if s[0] == QUOTE then 2 else 1;
      PairedUpToClose(s[u..]);
      assert s[..e][u..] == s[u..][..e - u];
    }
  }

  lemma {:induction false} BareRunIs(body: string, rest: string)
    requires (forall k :: 0 <= k < |body| ==> Bare(body[k])) && (rest == "" || !Bare(rest[0]))
    ensures BareRun(body + rest) == |body|
  {
    if body == "" {
      assert body + rest == rest;
    } else {
      assert (body + rest)[1..] == body[1..] + rest;
      BareRunIs(body[1..], rest);
    }
  }

  lemma {:induction false} BareUpToRun(s: string)
    ensures forall k :: 0 <= k < BareRun(s) ==> Bare(s[k])
  {
    if s != "" && Bare(s[0]) {
      BareUpToRun(s[1..]);
    }
  }

  /** A name followed by a dot or by nothing is read as that name. */
  lemma ReadNameOf(name: Name, rest: string)
    requires IsName(name) && (rest == "" || rest[0] == '.')
    ensures ReadName(name.text + rest) == Some((name, rest))
  {
    hide Close, BareRun, Paired;
    var x := name.text + rest;
    if name.text[0] == QUOTE {
      QuotedText(name.body, rest);
      CloseOfPaired(name.body, rest);
    } else {
      BareRunIs(name.body, rest);
      assert x[..|name.body|] == name.body && x[|name.body|..] == rest;
    }
  }

  lemma QuotedText(body: string, rest: string)
    ensures var text := [QUOTE] + body + [QUOTE]; var x := text + rest; var n := |body|;
      x[1..] == body + [QUOTE] + rest && x[..n + 2] == text && x[1..n + 1] == body && x[n + 2..] == rest
  {
  }

  lemma ReadNameSound(x: string)
    requires ReadName(x).Some?
    ensures var (name, rest) := ReadName(x).value; IsName(name) && x == name.text + rest
  {
    hide Close, BareRun, Paired;
    if x[0] == QUOTE {
      PairedUpToClose(x[1..]);
      BetweenQuotes(x, Close(x[1..]));
    } else {
      BareUpToRun(x);
      assert x == x[..BareRun(x)] + x[BareRun(x)..];
    }
  }

  lemma BetweenQuotes(x: string, e: nat)
    requires e + 1 < |x| && x[0] == QUOTE && x[1..][e] == QUOTE
    ensures x[1..][..e] == x[1..e + 1] && x[..e + 2] == [QUOTE] + x[1..e + 1] + [QUOTE] && x == x[..e + 2] + x[e + 2..]
  {
  }

  /** Reading follows the grammar, and so no text has two parses. */
  lemma {:induction false} ParseIffAccepted(x: string, dots: nat, p: Parts)
    ensures Parse(x, dots) == Some(p) <==> x == Source(p) && WellFormed(p) && |p.dotted| <= dots
    decreases dots
  {
    if Parse(x, dots) == Some(p) {
      ParseSound(x, dots);
    }
    if x == Source(p) && WellFormed(p) && |p.dotted| <= dots {
      ParseComplete(p, dots);
    }
  }

  lemma {:induction false} ParseSound(x: string, dots: nat)
    requires Parse(x, dots).Some?
    ensures var p := Parse(x, dots).value; x == Source(p) && WellFormed(p) && |p.dotted| <= dots
    decreases dots
  {
    hide ReadName, IsName, Source, WellFormed;
    NothingQuoted();
    if x != "" {
      ReadNameSound(x);
      var (name, rest) := ReadName(x).value;
      if rest == "" {
        OnePart(name);
        assert name.text + rest == name.text;
      } else {
        ParseSound(rest[1..], dots - 1);
        var q := Parse(rest[1..], dots - 1).value;
        MoreParts(name, q);
        assert rest == "." + rest[1..];
        assert name.text + ("." + Source(q)) == name.text + "." + Source(q);
      }
    }
  }

  lemma {:induction false} ParseComplete(p: Parts, dots: nat)
    requires WellFormed(p) && |p.dotted| <= dots
    ensures Parse(Source(p), dots) == Some(p)
    decreases dots
  {
    hide ReadName, IsName, Source, WellFormed;
    NothingQuoted();
    if p.dotted != [] {
      var name, q := p.dotted[0], p.(dotted := p.dotted[1..]);
      assert p == q.(dotted := [name] + q.dotted);
      MoreParts(name, q);
      ParseComplete(q, dots - 1);
      var rest := "." + Source(q);
      assert Source(p) == name.text + rest && rest[1..] == Source(q);
      ReadNameOf(name, rest);
    } else if p.last.Some? {
      assert p == Parts([], p.last);
      OnePart(p.last.value);
      ReadNameOf(p.last.value, "");
      NameHasText(p.last.value);
      assert p.last.value.text + "" == p.last.value.text;
    } else {
      assert p == Parts([], None);
    }
  }

  lemma NameHasText(name: Name)
    requires IsName(name)
    ensures name.text != ""
  {
  }

  // ----- Unquoting inverts quoting -----

  lemma {:induction false} DoubleIsPaired(s: string)
    ensures Paired(Double(s)) && Undouble(Double(s)) == s && (Double(s) == "" <==> s == "")
  {
    if s != "" {
      DoubleIsPaired(s[1..]);
      var d := Double(s);
      if s[0] == QUOTE {
        assert d[2..] == Double(s[1..]);
      } else {
        assert d[1..] == Double(s[1..]);
      }
    }
  }

  predicate NoneEmpty(components: seq<string>) {
    forall k :: 0 <= k < |components| ==> components[k] != ""
  }

  /** The parts of a quoted identifier. */
  function PartsOf(components: seq<string>): (p: Parts)
    ensures |p.dotted| == if components == [] then 0 else |components| - 1
  {
    if components == [] then Parts([], None)
    else
      var name := Name(Quote(components[0]), Double(components[0]));
      if |components| == 1 then Parts([], Some(name))
      else
        var more := PartsOf(components[1..]);
        more.(dotted := [name] + more.dotted)
  }

  lemma {:induction false} PartsOfQuoted(components: seq<string>)
    ensures Source(PartsOf(components)) == QuoteId(components)
    ensures WellFormed(PartsOf(components)) <==> NoneEmpty(components)
    ensures var p := PartsOf(components);
      components != [] ==>
        && p.last.Some? && Undouble(p.last.value.body) == components[|components| - 1]
        && forall k :: 0 <= k < |p.dotted| ==> Undouble(p.dotted[k].body) == components[k]
  {
    hide Source, WellFormed, IsName, NoneEmpty, Paired, Double, Undouble, Quote;
    NothingQuoted();
    if components != [] {
      var c := components[0];
      var name := Name(Quote(c), Double(c));
      DoubleIsPaired(c);
      QuotedIsName(c);
      NoneEmptyMore(components);
      if |components| == 1 {
        assert components[1..] == [];
        OnePart(name);
      } else {
        var more := PartsOf(components[1..]);
        PartsOfQuoted(components[1..]);
        MoreParts(name, more);
      }
    }
  }

  lemma NothingQuoted()
    ensures Source(Parts([], None)) == "" && WellFormed(Parts([], None)) && NoneEmpty([])
  {
  }

  lemma QuotedIsName(c: string)
    requires Paired(Double(c)) && (Double(c) == "" <==> c == "")
    ensures IsName(Name(Quote(c), Double(c))) <==> c != ""
  {
  }

  lemma NoneEmptyMore(components: seq<string>)
    requires components != []
    ensures NoneEmpty(components) <==> components[0] != "" && NoneEmpty(components[1..])
  {
    assert components == [components[0]] + components[1..];
  }

  lemma OnePart(name: Name)
    ensures Source(Parts([], Some(name))) == name.text && (WellFormed(Parts([], Some(name))) <==> IsName(name))
  {
  }

  lemma MoreParts(name: Name, more: Parts)
    ensures var p := more.(dotted := [name] + more.dotted);
      && Source(p) == name.text + "." + Source(more)
      && (WellFormed(p) <==> IsName(name) && WellFormed(more))
  {
    var p := more.(dotted := [name] + more.dotted);
    assert p.(dotted := p.dotted[1..]) == more;
    assert p.dotted[0] == name && forall k :: 0 <= k < |more.dotted| ==> p.dotted[k + 1] == more.dotted[k];
  }

  /** An empty component is quoted as a pair of quotes with nothing inside, which is no name. */
  lemma {:induction false} RejectsTheRest(components: seq<string>, dots: nat)
    requires Parse(QuoteId(components), dots).Some?
    ensures NoneEmpty(components) && |components| <= dots + 1
    decreases dots
  {
    hide ReadName, Double, Quote, QuoteId, NoneEmpty, IsName, Parse;
    NothingQuoted();
    if components != [] {
      var c, more := components[0], components[1..];
      var rest := if |components| == 1 then "" else "." + QuoteId(more);
      var x := Quote(c) + rest;
      QuoteIdParts(components, rest);
      NoneEmptyMore(components);
      QuoteEnds(c);
      ParseStep(x, dots);
      if c == "" {
        NoName(rest);
      } else {
        DoubleIsPaired(c);
        QuotedIsName(c);
        ReadNameOf(Name(Quote(c), Double(c)), rest);
        if |components| > 1 {
          assert rest[1..] == QuoteId(more);
          RejectsTheRest(more, dots - 1);
        } else {
          assert more == [];
        }
      }
    }
  }

  lemma ParseStep(x: string, dots: nat)
    requires x != "" && Parse(x, dots).Some?
    ensures ReadName(x).Some?
    ensures var rest := ReadName(x).value.1;
      rest == "" || (rest[0] == '.' && dots > 0 && Parse(rest[1..], dots - 1).Some?)
  {
  }

  lemma QuoteIdParts(components: seq<string>, rest: string)
    requires components != [] && rest == if |components| == 1 then "" else "." + QuoteId(components[1..])
    ensures QuoteId(components) == Quote(components[0]) + rest
  {
    hide Quote;
    if |components| == 1 {
      assert QuoteId(components) + "" == QuoteId(components);
    } else {
      assert Quote(components[0]) + "." + QuoteId(components[1..]) == Quote(components[0]) + ("." + QuoteId(components[1..]));
    }
  }

  lemma QuoteEnds(c: string)
    ensures Quote(c) != "" && Quote(c)[0] == QUOTE && (c == "" ==> Quote(c) == [QUOTE, QUOTE])
  {
  }

  lemma NoName(rest: string)
    requires rest == "" || rest[0] != QUOTE
    ensures ReadName([QUOTE, QUOTE] + rest) == None
  {
    assert ([QUOTE, QUOTE] + rest)[1..] == [QUOTE] + rest;
  }

  /** No text has two parses. */
  lemma Unambiguous(x: string, p: Parts, q: Parts)
    requires Accepts(x, p) && Accepts(x, q)
    ensures p == q
  {
    ParseIffAccepted(x, 2, p);
    ParseIffAccepted(x, 2, q);
  }

  /** Quoting components and taking the result apart returns the components, whatever quotes, dots or
      spaces they contain, exactly if there are at most three and none is empty. */
  lemma UnquoteInvertsQuote(components: seq<string>)
    ensures Unquote(QuoteId(components)).Some? <==> |components| <= 3 && NoneEmpty(components)
    ensures Unquote(QuoteId(components)).Some? ==> Components(Unquote(QuoteId(components)).value) == components
  {
    hide IdOf, Components, PartsOf, QuoteId, Parse, NoneEmpty;
    var x, p := QuoteId(components), PartsOf(components);
    PartsOfQuoted(components);
    ParseIffAccepted(x, 2, p);
    if Parse(x, 2).Some? {
      RejectsTheRest(components, 2);
      ComponentsOfParts(components);
    }
  }

  lemma ComponentsOfParts(components: seq<string>)
    requires |components| <= 3 && NoneEmpty(components)
    ensures Components(IdOf(PartsOf(components))) == components
  {
    hide PartsOf, QuoteId, Undouble, Components, NoneEmpty, WellFormed;
    PartsOfQuoted(components);
    if components == [] {
      NoParts();
      assert Components(Id("", "", "")) == [] by { NoComponents(); }
    } else {
      NamedInOrder(components);
      assert IdOf(PartsOf(components)) == Named(components);
    }
  }

  /** With fewer than three components, the leading ones are absent. */
  function Named(components: seq<string>): Id
    requires 1 <= |components| <= 3
  {
    var n := |components|;
    Id(if n == 3 then components[0] else "", if n >= 2 then components[n - 2] else "", components[n - 1])
  }

  lemma NamedInOrder(components: seq<string>)
    requires 1 <= |components| <= 3 && NoneEmpty(components)
    ensures Components(Named(components)) == components
  {
  }

  lemma NoComponents()
    ensures Components(Id("", "", "")) == []
  {
  }

  lemma NoParts()
    ensures PartsOf([]) == Parts([], None)
  {
  }

  // ----- What unquoting makes of a text, character by character -----

  /** A component as it may be written: bare, or between quotes with its own quotes doubled. */
  datatype Component = Plain(name: string) | Quoted(name: string)

  function ComponentText(c: Component): string {
    match c
    case Plain(name) => name
    case Quoted(name) => "\"" + Double(name) + "\""
  }

  /** A bare component may contain anything but quotes, dots and spaces, a quoted one anything. */
  predicate MayBeWritten(c: Component) {
    && c.name != ""
    && (c.Plain? ==> forall k :: 0 <= k < |c.name| ==> c.name[k] != '"' && c.name[k] != '.' && c.name[k] != ' ')
  }

  /** Doubling leaves other characters alone. */
  lemma {:induction false} NothingToDouble(s: string)
    requires forall k :: 0 <= k < |s| ==> s[k] != '"'
    ensures Double(s) == s
  {
    if s != "" {
      NothingToDouble(s[1..]);
    }
  }

  /** Each quote becomes two, wherever it is. */
  lemma QuotesAreDoubled(a: string, b: string)
    ensures Double(a + "\"" + b) == Double(a) + "\"\"" + Double(b)
  {
    DoubleSplits(a + "\"", b);
    DoubleSplits(a, "\"");
    assert Double("\"") == "\"\"" + Double("");
  }

  lemma {:induction false} DoubleSplits(a: string, b: string)
    ensures Double(a + b) == Double(a) + Double(b)
  {
    if a == "" {
      assert a + b == b;
    } else {
      assert (a + b)[1..] == a[1..] + b;
      DoubleSplits(a[1..], b);
    }
  }

  lemma {:induction false} UndoublePlain(s: string)
    requires forall k :: 0 <= k < |s| ==> s[k] != '"'
    ensures Undouble(s) == s
  {
    if s != "" {
      UndoublePlain(s[1..]);
    }
  }

  function NameOf(c: Component): Name {
    match c
    case Plain(name) => Name(name, name)
    case Quoted(name) => Name(Quote(name), Double(name))
  }

  lemma ComponentIsName(c: Component)
    requires MayBeWritten(c)
    ensures IsName(NameOf(c)) && NameOf(c).text == ComponentText(c) && Undouble(NameOf(c).body) == c.name
  {
    match c {
      case Plain(name) => UndoublePlain(name);
      case Quoted(name) => DoubleIsPaired(name);
    }
  }

  /** One component is a table, of two the first is a schema, of three the first is a catalog, however each of
      them is written. */
  lemma UnquotesComponents(a: Component, b: Component, c: Component)
    requires MayBeWritten(a) && MayBeWritten(b) && MayBeWritten(c)
    ensures Unquote(ComponentText(c)) == Some(Id("", "", c.name))
    ensures Unquote(ComponentText(b) + "." + ComponentText(c)) == Some(Id("", b.name, c.name))
    ensures Unquote(ComponentText(a) + "." + (ComponentText(b) + "." + ComponentText(c))) == Some(Id(a.name, b.name, c.name))
  {
    hide Source, WellFormed, IsName, Undouble, Parse, ComponentText, MayBeWritten, NameOf;
    ComponentIsName(a);
    ComponentIsName(b);
    ComponentIsName(c);
    var one := Parts([], Some(NameOf(c)));
    var two := Parts([NameOf(b)], Some(NameOf(c)));
    var three := Parts([NameOf(a), NameOf(b)], Some(NameOf(c)));
    OnePart(NameOf(c));
    MoreParts(NameOf(b), one);
    MoreParts(NameOf(a), two);
    assert [NameOf(b)] + one.dotted == two.dotted && [NameOf(a)] + two.dotted == three.dotted;
    ParseIffAccepted(Source(one), 2, one);
    ParseIffAccepted(Source(two), 2, two);
    ParseIffAccepted(Source(three), 2, three);
  }

  /** Without quotes there is no room for a space. */
  lemma RefusesSpaces(x: string, k: nat)
    requires k < |x| && x[k] == ' ' && forall i :: 0 <= i < |x| ==> x[i] != '"'
    ensures Unquote(x) == None
  {
    if Parse(x, 2).Some? {
      ParseSound(x, 2);
      SourceWithoutQuotes(Parse(x, 2).value);
    }
  }

  lemma {:induction false} SourceWithoutQuotes(p: Parts)
    requires WellFormed(p) && forall i :: 0 <= i < |Source(p)| ==> Source(p)[i] != '"'
    ensures forall i :: 0 <= i < |Source(p)| ==> Source(p)[i] != ' '
    decreases |p.dotted|
  {
    hide IsName, Source;
    if p.dotted != [] {
      var name, q := p.dotted[0], p.(dotted := p.dotted[1..]);
      MoreParts(name, q);
      assert q.(dotted := [name] + q.dotted) == p;
      var s, rest := Source(p), Source(q);
      assert s == name.text + "." + rest;
      assert forall i :: 0 <= i < |name.text| ==> name.text[i] == s[i];
      assert forall i :: 0 <= i < |rest| ==> rest[i] == s[|name.text| + 1 + i];
      NameWithoutQuotes(name);
      SourceWithoutQuotes(q);
    } else if p.last.Some? {
      assert p == Parts([], p.last);
      OnePart(p.last.value);
      NameWithoutQuotes(p.last.value);
    } else {
      assert p == Parts([], None);
      NothingQuoted();
    }
  }

  lemma NameWithoutQuotes(name: Name)
    requires IsName(name) && forall i :: 0 <= i < |name.text| ==> name.text[i] != '"'
    ensures forall i :: 0 <= i < |name.text| ==> name.text[i] != ' '
  {
    assert ([QUOTE] + name.body + [QUOTE])[0] == '"';
  }
}
