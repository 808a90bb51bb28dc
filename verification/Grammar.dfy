/**
 The texts NewMultiaddr accepts, name by name: what a text may start with, what must follow, and what it
 then stands for. Together these determine what every text parses to.
 */
module Grammar {
  import opened Wrappers
  import opened Text
  import opened Multiaddr

  /** The five names that are followed by a value. */
  predicate Valued(name: string, p: Proto) {
    || (name == "ip4" && p.Ip4?)
    || (name == "ip6" && p.Ip6?)
    || (name == "tcp" && p.Tcp?)
    || (name == "udp" && p.Udp?)
    || (name == "p2p" && p.P2p?)
  }

  /** The two names that stand alone. */
  predicate Lone(name: string, p: Proto) {
    (name == "quic" && p.Quic?) || (name == "p2p-circuit" && p.Circuit?)
  }

  predicate Known(name: string) {
    exists p :: Valued(name, p) || Lone(name, p)
  }

  /** Nothing, or a slash and more, without a slash at the end. */
  predicate Rest(rest: string) {
    rest == "" || (|rest| > 1 && rest[0] == '/' && rest[|rest| - 1] != '/')
  }

  /** A component in front of what the rest of the text stands for. */
  function Then(codec: Codec, c: Component, rest: string): Option<Addr> {
    if rest == "" then Some([c])
    else if Parse(codec, rest).None? then None
    else Some([c] + Parse(codec, rest).value)
  }

  lemma NamesOf(name: string, p: Proto)
    ensures Valued(name, p) ==> Named(name) == Some(p) && HasValue(p) && Lacks(name, '/') && name != ""
    ensures Lone(name, p) ==> Named(name) == Some(p) && !HasValue(p) && Lacks(name, '/') && name != "" && name[|name| - 1] != '/'
  {
  }

  lemma UnknownName(name: string)
    requires !Known(name)
    ensures Named(name).None?
  {
    assert !Valued(name, Ip4) && !Valued(name, Ip6) && !Valued(name, Tcp) && !Valued(name, Udp) && !Valued(name, P2p);
    assert !Lone(name, Quic) && !Lone(name, Circuit);
  }

  /** The parts of a text that starts with a word. */
  lemma FirstPart(codec: Codec, word: string, rest: string)
    requires Lacks(word, '/') && (rest == "" ==> word != "") && Rest(rest)
    ensures Parse(codec, "/" + word + rest) ==
            ParseParts(codec, [word] + if rest == "" then [] else Split(rest[1..], '/'))
  {
    var text := "/" + word + rest;
    NoTrailing(text);
    ParseTrimmed(codec, text);
    SplitWord(word, '/');
    if rest == "" {
      assert text[1..] == word && [word] + [] == [word];
    } else {
      assert text[1..] == word + ['/'] + rest[1..];
      SplitAt(word, rest[1..], '/');
    }
  }

  /** What follows the parts read so far. */
  lemma RestParts(codec: Codec, c: Component, rest: string)
    requires Rest(rest)
    ensures Cons(c, ParseParts(codec, if rest == "" then [] else Split(rest[1..], '/'))) == Then(codec, c, rest)
  {
    if rest == "" {
      assert [c] + [] == [c];
    } else {
      NoTrailing(rest);
      ParseTrimmed(codec, rest);
    }
  }

  /** "/tcp/1234" and the like: the value must be one of the protocol's, and stands in its canonical spelling. */
  lemma ValueFirst(codec: Codec, name: string, p: Proto, v: string, rest: string)
    requires Valued(name, p) && v != "" && Lacks(v, '/') && Rest(rest)
    ensures Parse(codec, "/" + name + ("/" + v + rest)) ==
            match codec(p, v) case None => None case Some(w) => Then(codec, Component(p, w), rest)
  {
    var more := "/" + v + rest;
    var qs := if rest == "" then [] else Split(rest[1..], '/');
    NamesOf(name, p);
    ValueParts(v, rest);
    FirstPart(codec, name, more);
    var ps := [name] + ([v] + qs);
    assert ps[0] == name && ps[1] == v && ps[2..] == qs;
    if codec(p, v).Some? {
      RestParts(codec, Component(p, codec(p, v).value), rest);
    }
  }

  lemma ValueParts(v: string, rest: string)
    requires v != "" && Lacks(v, '/') && Rest(rest)
    ensures var more := "/" + v + rest;
            Rest(more) && more != "" && Split(more[1..], '/') == [v] + if rest == "" then [] else Split(rest[1..], '/')
  {
    var more := "/" + v + rest;
    SplitWord(v, '/');
    if rest == "" {
      assert more[1..] == v && [v] + [] == [v];
    } else {
      assert more[1..] == v + ['/'] + rest[1..];
      SplitAt(v, rest[1..], '/');
    }
  }

  /** "/quic" and "/p2p-circuit" take no value. */
  lemma LoneFirst(codec: Codec, name: string, p: Proto, rest: string)
    requires Lone(name, p) && Rest(rest)
    ensures Parse(codec, "/" + name + rest) == Then(codec, Component(p, ""), rest)
  {
    var qs := if rest == "" then [] else Split(rest[1..], '/');
    NamesOf(name, p);
    FirstPart(codec, name, rest);
    assert ([name] + qs)[1..] == qs;
    RestParts(codec, Component(p, ""), rest);
  }

  /** A name that needs a value and is the last part does not parse. */
  lemma MissingValue(codec: Codec, name: string, p: Proto)
    requires Valued(name, p)
    ensures Parse(codec, "/" + name).None?
  {
    NamesOf(name, p);
    FirstPart(codec, name, "");
    assert "/" + name + "" == "/" + name && [name] + [] == [name];
  }

  /** A text whose first name is none of the seven does not parse. */
  lemma UnknownFirst(codec: Codec, name: string, rest: string)
    requires !Known(name) && Lacks(name, '/') && Rest(rest)
    ensures Parse(codec, "/" + name + rest).None?
  {
    UnknownName(name);
    if name == "" && rest == "" {
      ParseTrimmed(codec, "/");
      assert "/" + name + rest == "/" && "/"[..0] == "";
    } else {
      FirstPart(codec, name, rest);
    }
  }

  /** A text that does not start with a slash does not parse, and a slash at the end changes nothing. */
  lemma Slashes(codec: Codec, s: string)
    ensures s == "" || s[0] != '/' ==> Parse(codec, s).None?
    ensures Parse(codec, s + "/") == Parse(codec, s)
  {
    ParseTrimmed(codec, s);
    assert (s + "/")[..|s|] == s;
    assert TrimRight(s + "/", '/') == TrimRight(s, '/');
  }

  lemma OneValue(codec: Codec, name: string, p: Proto, v: string)
    requires Valued(name, p) && v != "" && Lacks(v, '/')
    ensures Parse(codec, ("/" + name + "/") + v) ==
            match codec(p, v) case None => None case Some(w) => Some([Component(p, w)])
  {
    ValueFirst(codec, name, p, v, "");
    assert "/" + name + ("/" + v + "") == ("/" + name + "/") + v;
  }

  /** One component, spelled out. */
  lemma OneComponent(codec: Codec, v: string)
    requires v != "" && Lacks(v, '/')
    ensures Parse(codec, "/ip4/" + v) == match codec(Ip4, v) case None => None case Some(w) => Some([Component(Ip4, w)])
    ensures Parse(codec, "/ip6/" + v) == match codec(Ip6, v) case None => None case Some(w) => Some([Component(Ip6, w)])
    ensures Parse(codec, "/tcp/" + v) == match codec(Tcp, v) case None => None case Some(w) => Some([Component(Tcp, w)])
    ensures Parse(codec, "/udp/" + v) == match codec(Udp, v) case None => None case Some(w) => Some([Component(Udp, w)])
    ensures Parse(codec, "/p2p/" + v) == match codec(P2p, v) case None => None case Some(w) => Some([Component(P2p, w)])
  {
    Spelled();
    OneValue(codec, "ip4", Ip4, v);
    OneValue(codec, "ip6", Ip6, v);
    OneValue(codec, "tcp", Tcp, v);
    OneValue(codec, "udp", Udp, v);
    OneValue(codec, "p2p", P2p, v);
  }

  lemma Spelled()
    ensures "/" + "ip4" + "/" == "/ip4/" && "/" + "ip6" + "/" == "/ip6/" && "/" + "tcp" + "/" == "/tcp/"
    ensures "/" + "udp" + "/" == "/udp/" && "/" + "p2p" + "/" == "/p2p/"
    ensures "/" + "quic" == "/quic" && "/" + "p2p-circuit" == "/p2p-circuit"
  {
  }

  lemma OneLone(codec: Codec, name: string, p: Proto)
    requires Lone(name, p)
    ensures Parse(codec, "/" + name) == Some([Component(p, "")])
  {
    LoneFirst(codec, name, p, "");
    assert "/" + name + "" == "/" + name;
  }

  lemma LoneComponents(codec: Codec)
    ensures Parse(codec, "/quic") == Some([Component(Quic, "")])
    ensures Parse(codec, "/p2p-circuit") == Some([Component(Circuit, "")])
  {
    Spelled();
    OneLone(codec, "quic", Quic);
    OneLone(codec, "p2p-circuit", Circuit);
  }

  /** A text that parses, with one more component behind it. */
  lemma OneMore(codec: Codec, s: string, m: Addr, name: string, p: Proto, v: string)
    requires Parse(codec, s) == Some(m) && s[|s| - 1] != '/'
    requires Valued(name, p) && v != "" && Lacks(v, '/') && codec(p, v) == Some(v)
    ensures var text := s + ("/" + name + "/") + v;
            Parse(codec, text) == Some(m + [Component(p, v)]) && text != "" && text[|text| - 1] != '/'
  {
    var head := "/" + name + "/";
    var t := head + v;
    OneValue(codec, name, p, v);
    NoTrailing(t);
    ParseConcat(codec, s, t);
    Assoc(s, head, v);
  }

  /** The addresses in use: a relay or bootstrap node by its IPv4 address, its port and its peer ID. */
  lemma DialText(codec: Codec, a: string, n: string, x: string)
    requires codec(Ip4, a) == Some(a) && codec(Tcp, n) == Some(n) && codec(P2p, x) == Some(x)
    requires a != "" && n != "" && x != "" && Lacks(a, '/') && Lacks(n, '/') && Lacks(x, '/')
    ensures Parse(codec, "/ip4/" + a + "/tcp/" + n) == Some([Component(Ip4, a), Component(Tcp, n)])
    ensures Parse(codec, "/ip4/" + a + "/tcp/" + n + "/p2p/" + x) ==
            Some([Component(Ip4, a), Component(Tcp, n), Component(P2p, x)])
  {
    var c, d, e := Component(Ip4, a), Component(Tcp, n), Component(P2p, x);
    Spelled();
    OneComponent(codec, a);
    OneMore(codec, "/ip4/" + a, [c], "tcp", Tcp, n);
    assert [c] + [d] == [c, d];
    OneMore(codec, "/ip4/" + a + "/tcp/" + n, [c, d], "p2p", P2p, x);
    assert [c, d] + [e] == [c, d, e];
  }
}
