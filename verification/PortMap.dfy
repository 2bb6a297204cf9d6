/** The map from type-C ports to whether a partner is attached (usb/usb/Usb.cpp:524-550). */
module PortMap {
  import opened Wrappers

  datatype DirEntry = DirEntry(name: string, isLink: bool)

  const PARTNER := "-partner"

  predicate Contains(s: string, part: string) {
    part <= s || (s != [] && Contains(s[1..], part))
  }

  predicate IsPartner(name: string) {
    Contains(name, PARTNER)
  }

  /** `strtok(name, "-")`: the first run of characters other than "-". */
  function FirstToken(name: string): string {
    if name == [] then []
    else if name[0] == '-' then FirstToken(name[1..])
    else Run(name)
  }

  function Run(s: string): string {
    if s == [] || s[0] == '-' then [] else [s[0]] + Run(s[1..])
  }

  function Links(dir: seq<DirEntry>): set<string> {
    set e | e in dir && e.isLink :: e.name
  }

  /** The ports a set of link names stands for. */
  function Ports(links: set<string>): set<string> {
    (set n | n in links && !IsPartner(n)) + (set n | n in links && IsPartner(n) :: FirstToken(n))
  }

  ghost predicate HasPartner(links: set<string>, port: string) {
    exists n :: n in links && IsPartner(n) && FirstToken(n) == port
  }

  /** What the map means: its keys are the ports, and a port is connected exactly when a partner link names it. */
  ghost predicate Describes(names: map<string, bool>, links: set<string>) {
    names.Keys == Ports(links) && forall p :: p in names ==> (names[p] <==> HasPartner(links, p))
  }

  /** Fills the map in directory order; None is a directory that does not open. */
  method GetTypeCPortNames(dir: Option<seq<DirEntry>>) returns (names: map<string, bool>, success: bool)
    ensures success <==> dir.Some?
    ensures Describes(names, if success then Links(dir.value) else {})
  {
    names, success := map[], dir.Some?;
    if !success {
      return;
    }
    var entries := dir.value;
    for i := 0 to |entries|
      invariant Describes(names, Links(entries[..i]))
    {
      var ep := entries[i];
      ghost var before := Links(entries[..i]);
      OneMoreEntry(entries, i);
      if ep.isLink {
        OneMoreLink(before, names, ep.name);
        if !IsPartner(ep.name) {
          if ep.name !in names {
            names := names[ep.name := false];
          }
        } else {
          names := names[FirstToken(ep.name) := true];
        }
      }
      hide Describes, Links, IsPartner, FirstToken;
    }
    assert entries[..|entries|] == entries;
  }

  lemma OneMoreEntry(entries: seq<DirEntry>, i: nat)
    requires i < |entries|
    ensures Links(entries[..i + 1]) == Links(entries[..i]) + if entries[i].isLink then {entries[i].name} else {}
  {
    assert entries[..i + 1] == entries[..i] + [entries[i]];
  }

  /** One link more, as a change of the map. */
  lemma OneMoreLink(links: set<string>, names: map<string, bool>, name: string)
    requires Describes(names, links)
    ensures IsPartner(name) ==> Describes(names[FirstToken(name) := true], links + {name})
    ensures !IsPartner(name) && name in names ==> Describes(names, links + {name})
    ensures !IsPartner(name) && name !in names ==> Describes(names[name := false], links + {name})
  {
    LinkAdds(links, name);
    hide IsPartner, FirstToken, Ports, HasPartner;
  }

  lemma LinkAdds(links: set<string>, name: string)
    ensures Ports(links + {name}) == Ports(links) + {if IsPartner(name) then FirstToken(name) else name}
    ensures forall p :: HasPartner(links + {name}, p) <==> HasPartner(links, p) || (IsPartner(name) && FirstToken(name) == p)
    ensures forall p :: HasPartner(links, p) ==> p in Ports(links)
  {
    forall p ensures HasPartner(links + {name}, p) <==> HasPartner(links, p) || (IsPartner(name) && FirstToken(name) == p) {
      if HasPartner(links, p) {
        var n :| n in links && IsPartner(n) && FirstToken(n) == p;
        assert n in links + {name};
      }
      if IsPartner(name) && FirstToken(name) == p {
        assert name in links + {name};
      }
    }
  }

  /** Every order of the same entries, and every repetition of them, gives the same map. */
  lemma OrderIndependent(d1: seq<DirEntry>, d2: seq<DirEntry>, m1: map<string, bool>, m2: map<string, bool>)
    requires forall e :: e in d1 <==> e in d2
    requires Describes(m1, Links(d1)) && Describes(m2, Links(d2))
    ensures m1 == m2
  {
    assert Links(d1) == Links(d2);
  }

  /** A partner link names a port: the token is the text before the first "-" of a name that starts with none. */
  lemma {:induction false} TokenOfPartner(port: string, rest: string)
    requires port != [] && '-' !in port
    ensures FirstToken(port + PARTNER + rest) == port && IsPartner(port + PARTNER + rest)
  {
    RunOf(port, PARTNER + rest);
    assert port + PARTNER + rest == port + (PARTNER + rest);
    ContainsAt(port, PARTNER, rest);
  }

  lemma {:induction false} RunOf(port: string, rest: string)
    requires '-' !in port && rest != [] && rest[0] == '-'
    ensures Run(port + rest) == port
  {
    if port == [] {
      assert port + rest == rest;
    } else {
      RunOf(port[1..], rest);
      assert (port + rest)[1..] == port[1..] + rest;
    }
  }

  lemma {:induction false} ContainsAt(pre: string, part: string, post: string)
    ensures Contains(pre + part + post, part)
  {
    if pre == [] {
      assert pre + part + post == part + post;
    } else {
      ContainsAt(pre[1..], part, post);
      assert (pre + part + post)[1..] == pre[1..] + part + post;
    }
  }

  /** Partner links are the names with "-partner" somewhere in them, and no others. */
  lemma PartnerIff(name: string)
    ensures IsPartner(name) <==> exists pre: string, post: string :: name == pre + "-partner" + post
  {
    if IsPartner(name) {
      var pre, post := ContainsWhere(name, PARTNER);
      assert name == pre + "-partner" + post;
    }
    if pre: string, post: string :| name == pre + "-partner" + post {
      ContainsAt(pre, PARTNER, post);
    }
  }

  lemma {:induction false} ContainsWhere(s: string, part: string) returns (pre: string, post: string)
    requires Contains(s, part)
    ensures s == pre + part + post
  {
    if part <= s {
      pre, post := [], s[|part|..];
    } else {
      pre, post := ContainsWhere(s[1..], part);
      pre := [s[0]] + pre;
      assert s == [s[0]] + s[1..];
    }
  }

  /** The first token, for every name: behind any dashes, up to the next one or the end. */
  lemma {:induction false} TokenBehindDashes(dashes: string, token: string, rest: string)
    requires (forall c :: c in dashes ==> c == '-') && '-' !in token
    requires rest == [] || rest[0] == '-'
    requires token == [] ==> rest == []
    ensures FirstToken(dashes + token + rest) == token
  {
    if dashes == [] {
      assert dashes + token + rest == token + rest;
      assert token != [] ==> token[0] in token;
      if rest == [] {
        RunAlone(token);
        assert token + rest == token;
      } else {
        RunOf(token, rest);
        assert (token + rest)[0] == token[0];
      }
    } else {
      assert dashes[0] in dashes && (dashes + token + rest)[0] == dashes[0];
      assert (dashes + token + rest)[1..] == dashes[1..] + token + rest;
      assert forall c :: c in dashes[1..] ==> c in dashes;
      TokenBehindDashes(dashes[1..], token, rest);
    }
  }

  lemma {:induction false} RunAlone(s: string)
    requires '-' !in s
    ensures Run(s) == s
  {
    if s != [] { RunAlone(s[1..]); }
  }
}
