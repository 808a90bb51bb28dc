/**
 The human-readable form of the multiformats multiaddr specification, for the components the
 program uses, as multiaddr.NewMultiaddr reads it. What counts as a value of ip4, tcp, p2p and so on, and
 its canonical spelling, is the library's business and comes in as a codec.
 */
module Multiaddr {
  import opened Wrappers
  import opened Text

  datatype Proto = Ip4 | Ip6 | Tcp | Udp | Quic | P2p | Circuit

  datatype Component = Component(proto: Proto, value: string)

  type Addr = seq<Component>

  /** The canonical spelling of a value, or None when it is not one. */
  type Codec = (Proto, string) -> Option<string>

  function Name(p: Proto): string {
    match p
    case Ip4 => "ip4"
    case Ip6 => "ip6"
    case Tcp => "tcp"
    case Udp => "udp"
    case Quic => "quic"
    case P2p => "p2p"
    case Circuit => "p2p-circuit"
  }

  function Named(s: string): Option<Proto> {
    if s == "ip4" then Some(Ip4)
    else if s == "ip6" then Some(Ip6)
    else if s == "tcp" then Some(Tcp)
    else if s == "udp" then Some(Udp)
    else if s == "quic" then Some(Quic)
    else if s == "p2p" then Some(P2p)
    else if s == "p2p-circuit" then Some(Circuit)
    else None
  }

  predicate HasValue(p: Proto) {
    !p.Quic? && !p.Circuit?
  }

  /** Canonical spellings are non-empty, slash-free and their own canonical spelling. */
  ghost predicate Lawful(codec: Codec) {
    forall p, v :: codec(p, v).Some? ==>
                     var w := codec(p, v).value;
                     w != "" && Lacks(w, '/') && codec(p, w) == Some(w)
  }

  predicate ComponentOk(codec: Codec, c: Component) {
    if HasValue(c.proto) then codec(c.proto, c.value) == Some(c.value) else c.value == ""
  }

  predicate WellFormed(codec: Codec, m: Addr) {
    m != [] && forall c :: c in m ==> ComponentOk(codec, c)
  }

  function PrintOne(c: Component): string {
    "/" + Name(c.proto) + if HasValue(c.proto) then "/" + c.value else ""
  }

  /** Multiaddr.String. */
  function Print(m: Addr): string {
    if m == [] then "" else Print(m[..|m| - 1]) + PrintOne(m[|m| - 1])
  }

  /** The loop of NewMultiaddr over the parts between slashes. */
  function ParseParts(codec: Codec, ps: seq<string>): Option<Addr> {
    if ps == [] then Some([])
    else
      var p := Named(ps[0]);
      if p.None? then None
      else if !HasValue(p.value) then Cons(Component(p.value, ""), ParseParts(codec, ps[1..]))
      else if |ps| < 2 then None
      else
        var v := codec(p.value, ps[1]);
        if v.None? then None else Cons(Component(p.value, v.value), ParseParts(codec, ps[2..]))
  }

  function Cons(c: Component, rest: Option<Addr>): Option<Addr> {
    if rest.None? then None else Some([c] + rest.value)
  }

  /** multiaddr.NewMultiaddr. */
  function Parse(codec: Codec, s: string): Option<Addr> {
    var t := TrimRight(s, '/');
    var ps := Split(t, '/');
    if ps[0] != "" || |ps| == 1 then None else ParseParts(codec, ps[1..])
  }

  lemma ConsConcat(c: Component, a: Addr, rest: Option<Addr>)
    ensures rest.Some? ==> [c] + (a + rest.value) == ([c] + a) + rest.value
  {
  }

  // ---- Concatenation of texts is encapsulation of addresses

  lemma {:induction false} PartsConcat(codec: Codec, ps: seq<string>, qs: seq<string>)
    requires ParseParts(codec, ps).Some?
    ensures ParseParts(codec, ps + qs) ==
            if ParseParts(codec, qs).None? then None
            else Some(ParseParts(codec, ps).value + ParseParts(codec, qs).value)
  {
    if ps == [] {
      assert ps + qs == qs;
      assert ParseParts(codec, qs).Some? ==> [] + ParseParts(codec, qs).value == ParseParts(codec, qs).value;
    } else {
      var p := Named(ps[0]).value;
      var n := if HasValue(p) then 2 else 1;
      PartsConcat(codec, ps[n..], qs);
      assert (ps + qs)[0] == ps[0] && (ps + qs)[n..] == ps[n..] + qs;
      assert n == 2 ==> (ps + qs)[1] == ps[1];
      var c := ParseParts(codec, ps).value[0];
      ConsConcat(c, ParseParts(codec, ps[n..]).value, ParseParts(codec, qs));
    }
  }

  /** A text that starts with a slash splits into nothing followed by the rest. */
  lemma Slashed(t: string)
    requires t != "" && t[0] == '/'
    ensures Split(t, '/') == [""] + Split(t[1..], '/')
  {
  }

  /** What Parse needs of a text, once trailing slashes are gone. */
  lemma ParseTrimmed(codec: Codec, s: string)
    ensures var t := TrimRight(s, '/');
            Parse(codec, s) == if t == "" || t[0] != '/' then None else ParseParts(codec, Split(t[1..], '/'))
  {
    var t := TrimRight(s, '/');
    SplitStart(t, '/');
    if t != "" && t[0] == '/' {
      Slashed(t);
    }
  }

  lemma {:induction false} NoTrailing(s: string)
    requires s != "" && s[|s| - 1] != '/'
    ensures TrimRight(s, '/') == s
  {
  }

  /** Parsing s + t, when s does not end in a slash and t starts with one and has more. */
  lemma ParseConcat(codec: Codec, s: string, t: string)
    requires Parse(codec, s).Some? && s[|s| - 1] != '/'
    requires t != "" && t[0] == '/' && TrimRight(t, '/') != ""
    ensures Parse(codec, s + t) ==
            if Parse(codec, t).None? then None else Some(Parse(codec, s).value + Parse(codec, t).value)
  {
    var u := TrimRight(t, '/');
    NoTrailing(s);
    TrimRightConcat(s, t, '/');
    ParseTrimmed(codec, s);
    ParseTrimmed(codec, t);
    ParseTrimmed(codec, s + t);
    SplitTogether(s, u);
    PartsConcat(codec, Split(s[1..], '/'), Split(u[1..], '/'));
  }

  lemma SplitTogether(s: string, u: string)
    requires s != "" && s[0] == '/' && u != "" && u[0] == '/'
    ensures (s + u)[0] == '/' && Split((s + u)[1..], '/') == Split(s[1..], '/') + Split(u[1..], '/')
  {
    assert (s + u)[1..] == s[1..] + ['/'] + u[1..];
    SplitAt(s[1..], u[1..], '/');
  }

  /**
   For any two texts that parse, the concatenated text parses to one address encapsulated by the other
   exactly when the first does not end in a slash; when it does, the concatenation does not parse.
   */
  lemma ConcatIsEncapsulate(codec: Codec, s: string, t: string)
    requires Parse(codec, s).Some? && Parse(codec, t).Some?
    ensures Parse(codec, s + t) == Some(Parse(codec, s).value + Parse(codec, t).value) <==> s[|s| - 1] != '/'
    ensures s[|s| - 1] == '/' ==> Parse(codec, s + t).None?
  {
    ParseTrimmed(codec, t);
    if s[|s| - 1] != '/' {
      ParseConcat(codec, s, t);
    } else {
      DoubleSlash(codec, s, t);
    }
  }

  lemma DoubleSlash(codec: Codec, s: string, t: string)
    requires Parse(codec, s).Some? && Parse(codec, t).Some? && s[|s| - 1] == '/'
    ensures Parse(codec, s + t).None?
  {
    var a := TrimRight(s, '/');
    var gap := s[|a|..] + t;
    ParseTrimmed(codec, s);
    ParseTrimmed(codec, t);
    Assoc(a, s[|a|..], t);
    assert a + s[|a|..] == s;
    GapFails(codec, s[|a|..], t);
    TrimmedParses(codec, s);
    ParseConcat(codec, a, gap);
  }

  /** Slashes in front of a text that parses leave an empty component name. */
  lemma GapFails(codec: Codec, slashes: string, t: string)
    requires slashes != "" && (forall k :: 0 <= k < |slashes| ==> slashes[k] == '/')
    requires Parse(codec, t).Some?
    ensures Parse(codec, slashes + t).None?
    ensures (slashes + t)[0] == '/' && TrimRight(slashes + t, '/') != ""
  {
    ParseTrimmed(codec, t);
    TrimRightConcat(slashes, t, '/');
    var g := slashes + TrimRight(t, '/');
    assert g[0] == '/' && g[1] == '/';
    ParseTrimmed(codec, slashes + t);
    Slashed(g[1..]);
    assert Named("").None?;
  }

  /** Trailing slashes change nothing. */
  lemma TrimmedParses(codec: Codec, s: string)
    requires TrimRight(s, '/') != ""
    ensures Parse(codec, TrimRight(s, '/')) == Parse(codec, s)
  {
    NoTrailing(TrimRight(s, '/'));
  }

  // ---- Round trip

  lemma NamesParse(p: Proto)
    ensures Named(Name(p)) == Some(p) && Lacks(Name(p), '/') && Name(p) != "" && Name(p)[|Name(p)| - 1] != '/'
  {
  }

  lemma ParsePrintOne(codec: Codec, c: Component)
    requires Lawful(codec) && ComponentOk(codec, c)
    ensures Parse(codec, PrintOne(c)) == Some([c])
    ensures PrintOne(c) != "" && PrintOne(c)[0] == '/' && PrintOne(c)[|PrintOne(c)| - 1] != '/'
  {
    NamesParse(c.proto);
    var ps := PrintOneParts(codec, c);
    NoTrailing(PrintOne(c));
    ParseTrimmed(codec, PrintOne(c));
    assert [c] + [] == [c];
  }

  lemma PrintOneParts(codec: Codec, c: Component) returns (ps: seq<string>)
    requires Lawful(codec) && ComponentOk(codec, c)
    ensures ps == Split(PrintOne(c)[1..], '/') && PrintOne(c)[|PrintOne(c)| - 1] != '/'
    ensures ps == if HasValue(c.proto) then [Name(c.proto), c.value] else [Name(c.proto)]
    ensures HasValue(c.proto) ==> ps[2..] == []
    ensures !HasValue(c.proto) ==> ps[1..] == []
  {
    var n, v := Name(c.proto), c.value;
    ps := Split(PrintOne(c)[1..], '/');
    NamesParse(c.proto);
    SplitWord(n, '/');
    if HasValue(c.proto) {
      assert codec(c.proto, v) == Some(v) && Lacks(v, '/') && v[|v| - 1] != '/';
      SplitWord(v, '/');
      SplitAt(n, v, '/');
      assert PrintOne(c)[1..] == n + ['/'] + v;
    } else {
      assert PrintOne(c)[1..] == n;
    }
  }

  predicate FullText(s: string) {
    s != "" && s[0] == '/' && s[|s| - 1] != '/'
  }

  lemma PrintSingle(c: Component)
    ensures Print([c]) == PrintOne(c)
  {
    assert [c][..0] == [];
    assert "" + PrintOne(c) == PrintOne(c);
  }

  lemma ParsePrintNext(codec: Codec, init: Addr, text: string, c: Component)
    requires Lawful(codec) && ComponentOk(codec, c)
    requires Parse(codec, text) == Some(init) && FullText(text)
    ensures Parse(codec, text + PrintOne(c)) == Some(init + [c]) && FullText(text + PrintOne(c))
  {
    ParsePrintOne(codec, c);
    NoTrailing(PrintOne(c));
    ParseConcat(codec, text, PrintOne(c));
  }

  /** Parsing a printed well-formed address returns it. */
  lemma {:induction false} ParsePrint(codec: Codec, m: Addr)
    requires Lawful(codec) && WellFormed(codec, m)
    ensures Parse(codec, Print(m)) == Some(m) && FullText(Print(m))
  {
    var init, c := m[..|m| - 1], m[|m| - 1];
    assert m == init + [c];
    if init == [] {
      ParsePrintOne(codec, c);
      PrintSingle(c);
    } else {
      ParsePrint(codec, init);
      ParsePrintNext(codec, init, Print(init), c);
    }
  }

  lemma {:induction false} PartsWellFormed(codec: Codec, ps: seq<string>)
    requires Lawful(codec) && ParseParts(codec, ps).Some?
    ensures forall c :: c in ParseParts(codec, ps).value ==> ComponentOk(codec, c)
    ensures ps != [] ==> ParseParts(codec, ps).value != []
  {
    if ps != [] {
      var n := if HasValue(Named(ps[0]).value) then 2 else 1;
      PartsWellFormed(codec, ps[n..]);
    }
  }

  /** Whatever parses is well formed, so printing and parsing again returns it: printing is canonical. */
  lemma ParsedIsWellFormed(codec: Codec, s: string)
    requires Lawful(codec) && Parse(codec, s).Some?
    ensures WellFormed(codec, Parse(codec, s).value)
    ensures Parse(codec, Print(Parse(codec, s).value)) == Parse(codec, s)
  {
    ParseTrimmed(codec, s);
    PartsWellFormed(codec, Split(TrimRight(s, '/')[1..], '/'));
    ParsePrint(codec, Parse(codec, s).value);
  }

  lemma {:induction false} PrintConcat(a: Addr, b: Addr)
    ensures Print(a + b) == Print(a) + Print(b)
  {
    if b == [] {
      assert a + b == a;
      assert Print(a) + "" == Print(a);
    } else {
      var init, last := b[..|b| - 1], b[|b| - 1];
      assert (a + b)[..|a + b| - 1] == a + init && (a + b)[|a + b| - 1] == last;
      PrintConcat(a, init);
      Assoc(Print(a), Print(init), PrintOne(last));
    }
  }
}
