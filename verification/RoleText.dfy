/** The text of the type-C role nodes (usb/usb/Usb.cpp:249-293, 404-442, 459-522). */
module RoleText {
  import opened Wrappers

  datatype PowerRole = NoPower | Source | Sink
  datatype DataRole = NoData | Host | Device
  datatype PortMode = NoMode | Ufp | Dfp | Drp | AudioAccessory | DebugAccessory

  datatype Tag = PowerTag | DataTag | ModeTag
  datatype PortRole = Power(power: PowerRole) | Data(data: DataRole) | Mode(mode: PortMode)
  {
    function GetTag(): Tag {
      match this
      case Power(_) => PowerTag
      case Data(_) => DataTag
      case Mode(_) => ModeTag
    }
  }

  datatype Reply = Success(role: PortRole) | Error | UnrecognizedRole

  /** The size of `size_t` arithmetic, and the length no string reaches. */
  const WORD64 := 0x1_0000_0000_0000_0000
  const MAX_SIZE := 0x8000_0000_0000_0000

  function ConvertRoleToString(role: PortRole): string {
    match role
    case Power(Source) => "source"
    case Power(Sink) => "sink"
    case Data(Host) => "host"
    case Data(Device) => "device"
    case Mode(Ufp) => "sink"
    case Mode(Dfp) => "source"
    case _ => "none"
  }

  /** `find`: the first position of a character, if any. */
  function Find(s: string, c: char): (r: Option<nat>)
    ensures r.Some? ==> r.value < |s| && s[r.value] == c
  {
    if s == [] then None
    else if s[0] == c then Some(0)
    else match Find(s[1..], c)
      case None => None
      case Some(i) => Some(i + 1)
  }

  /** `substr`: at most `count` characters from `pos` on. */
  function Substr(s: string, pos: nat, count: nat): string
    requires pos <= |s|
  {
    if pos + count <= |s| then s[pos..pos + count] else s[pos..]
  }

  /** The value of a difference in `size_t`. */
  function Minus(m: int, n: int): nat {
    (m - n) % WORD64
  }

  /** Replaces the text by what stands between its first brackets; the length wraps when the first "]" precedes
      the first "[". */
  function ExtractRole(s: string): string {
    match (Find(s, '['), Find(s, ']'))
    case (Some(first), Some(last)) => Substr(s, first + 1, Minus(last, first + 1))
    case _ => s
  }

  predicate IsSpace(c: char) {
    c == ' ' || '\t' <= c <= '\r'
  }

  function TrimLeft(s: string): string {
    if s != [] && IsSpace(s[0]) then TrimLeft(s[1..]) else s
  }

  function Trim(s: string): string {
    var t := TrimLeft(s);
    TrimRight(t)
  }

  function TrimRight(s: string): string {
    if s != [] && IsSpace(s[|s| - 1]) then TrimRight(s[..|s| - 1]) else s
  }

  /** The power and data part of switchRole: the node is written and read back; None is a failed read. */
  function SwitchPlainRole(role: PortRole, written: bool, readBack: Option<string>): bool {
    written && readBack.Some? && ExtractRole(Trim(readBack.value)) == ConvertRoleToString(role)
  }

  /** getCurrentRoleHelper: the role a port is in, from the content of the node and, for a mode, of the accessory
      node. Text of another kind of role sets a role of that kind. */
  function GetCurrentRole(tag: Tag, connected: bool, accessory: Option<string>, node: Option<string>): Reply {
    var none := match tag case PowerTag => Power(NoPower) case DataTag => Data(NoData) case ModeTag => Mode(NoMode);
    if !connected then Success(none)
    else if tag == ModeTag && accessory == None then Error
    else if tag == ModeTag && Trim(accessory.value) == "analog_audio" then Success(Mode(AudioAccessory))
    else if tag == ModeTag && Trim(accessory.value) == "debug" then Success(Mode(DebugAccessory))
    else if node == None then Error
    else
      var roleName := ExtractRole(Trim(node.value));
      if roleName == "source" then Success(Power(Source))
      else if roleName == "sink" then Success(Power(Sink))
      else if roleName == "host" then Success(if tag == DataTag then Data(Host) else Mode(Dfp))
      else if roleName == "device" then Success(if tag == DataTag then Data(Device) else Mode(Ufp))
      else if roleName != "none" then UnrecognizedRole
      else Success(none)
  }

  // ---------- Properties ----------

  /** It is the first, and there is one if the character occurs. */
  lemma {:induction false} FindIsFirst(s: string, c: char)
    ensures var r := Find(s, c);
            && (r.Some? <==> c in s)
            && forall j :: 0 <= j < |s| && (r == None || j < r.value) ==> s[j] != c
  {
    if s != [] && s[0] != c {
      FindIsFirst(s[1..], c);
      assert s == [s[0]] + s[1..];
      assert forall j :: 0 < j < |s| ==> s[j] == s[1..][j - 1];
    }
  }

  lemma FindIs(s: string, c: char, i: nat)
    requires i < |s| && s[i] == c && forall j :: 0 <= j < i ==> s[j] != c
    ensures Find(s, c) == Some(i)
  {
    hide Find;
    FindIsFirst(s, c);
  }

  lemma SubstrWraps(s: string, first: nat, last: nat)
    requires first < |s| < MAX_SIZE && last < |s| && first != last
    ensures Substr(s, first + 1, Minus(last, first + 1)) == if first < last then s[first + 1..last] else s[first + 1..]
  {
    hide Minus;
    MinusLaw(last, first + 1);
  }

  lemma MinusLaw(m: int, n: int)
    requires -WORD64 <= m - n < WORD64
    ensures Minus(m, n) == if m >= n then m - n else m - n + WORD64
  {
  }

  /** The three shapes of the result: untouched, between the brackets, or everything behind a "[" that follows a "]". */
  function Between(s: string, first: Option<nat>, last: Option<nat>): string
    requires (first.Some? ==> first.value < |s|) && (last.Some? ==> last.value < |s|)
  {
    if first == None || last == None then s
    else if first.value < last.value then s[first.value + 1..last.value]
    else s[first.value + 1..]
  }

  /** The wrapped length never reaches beyond the text. */
  lemma ExtractShapes(s: string)
    requires |s| < MAX_SIZE
    ensures ExtractRole(s) == Between(s, Find(s, '['), Find(s, ']'))
  {
    hide *;
    var f, l := Find(s, '['), Find(s, ']');
    ExtractBetween(s, f, l);
    ShapeOf(s, f, l);
  }

  lemma ExtractBetween(s: string, f: Option<nat>, l: Option<nat>)
    requires f == Find(s, '[') && l == Find(s, ']')
    ensures ExtractRole(s) == if f.Some? && l.Some? then Substr(s, f.value + 1, Minus(l.value, f.value + 1)) else s
  {
    hide Find, Substr, Minus;
  }

  lemma ShapeOf(s: string, f: Option<nat>, l: Option<nat>)
    requires |s| < MAX_SIZE
    requires (f.Some? ==> f.value < |s| && s[f.value] == '[') && (l.Some? ==> l.value < |s| && s[l.value] == ']')
    ensures (if f.Some? && l.Some? then Substr(s, f.value + 1, Minus(l.value, f.value + 1)) else s) == Between(s, f, l)
  {
    hide Substr, Minus;
    if f.Some? && l.Some? { SubstrWraps(s, f.value, l.value); }
  }

  /** The selected role of a list of roles. */
  lemma ExtractBracketed(pre: string, r: string, post: string)
    requires '[' !in pre && ']' !in pre && ']' !in r
    requires |pre| + |r| + |post| + 2 < MAX_SIZE
    ensures ExtractRole(pre + "[" + r + "]" + post) == r
  {
    hide ExtractRole, Find;
    var s := pre + "[" + r + "]" + post;
    Bracketed(pre, r, post);
    FindIs(s, '[', |pre|);
    FindIs(s, ']', |pre| + 1 + |r|);
    ExtractShapes(s);
  }

  lemma Bracketed(pre: string, r: string, post: string)
    requires '[' !in pre && ']' !in pre && ']' !in r
    ensures var s := pre + "[" + r + "]" + post;
            && |s| == |pre| + |r| + |post| + 2 && s[|pre|] == '[' && s[|pre| + 1 + |r|] == ']'
            && s[|pre| + 1..|pre| + 1 + |r|] == r
            && (forall j :: 0 <= j < |pre| ==> s[j] != '[') && (forall j :: 0 <= j < |pre| + 1 + |r| ==> s[j] != ']')
  {
  }

  /** Extracting twice changes nothing, except when the first "]" precedes the first "[" and both brackets occur
      again behind that. */
  lemma ExtractIdempotentIff(s: string)
    requires |s| < MAX_SIZE
    ensures ExtractRole(ExtractRole(s)) == ExtractRole(s)
       <==> !(match (Find(s, '['), Find(s, ']'))
              case (Some(first), Some(last)) => last < first && '[' in s[first + 1..] && ']' in s[first + 1..]
              case _ => false)
  {
    hide *;
    var f, l := Find(s, '['), Find(s, ']');
    if f.Some? && l.Some? {
      if f.value < l.value { TwiceBetween(s, f.value, l.value); } else { TwiceBehind(s, f.value, l.value); }
    } else {
      TwiceUntouched(s);
    }
  }

  lemma TwiceUntouched(s: string)
    requires |s| < MAX_SIZE && (Find(s, '[') == None || Find(s, ']') == None)
    ensures ExtractRole(ExtractRole(s)) == ExtractRole(s)
  {
    hide ExtractRole, Find;
    ExtractShapes(s);
  }

  lemma TwiceBetween(s: string, first: nat, last: nat)
    requires |s| < MAX_SIZE && Find(s, '[') == Some(first) && Find(s, ']') == Some(last) && first < last
    ensures ExtractRole(ExtractRole(s)) == ExtractRole(s)
  {
    hide ExtractRole, Find;
    ExtractShapes(s);
    FindIsFirst(s, ']');
    Untouched(s[first + 1..last]);
  }

  lemma TwiceBehind(s: string, first: nat, last: nat)
    requires |s| < MAX_SIZE && Find(s, '[') == Some(first) && Find(s, ']') == Some(last) && first >= last
    ensures last < first
    ensures ExtractRole(ExtractRole(s)) == ExtractRole(s) <==> !('[' in s[first + 1..] && ']' in s[first + 1..])
  {
    hide ExtractRole, Find;
    ExtractShapes(s);
    Untouched(s[first + 1..]);
  }

  /** A text is its own role exactly if it lacks one of the brackets. */
  lemma Untouched(s: string)
    requires |s| < MAX_SIZE
    ensures ExtractRole(s) == s <==> !('[' in s && ']' in s)
  {
    hide ExtractRole, Find;
    FindIsFirst(s, '[');
    FindIsFirst(s, ']');
    ExtractShapes(s);
  }

  /** Role round trip, for power and data roles, whatever the write and the read come to: switchRole reports success
      exactly when it could write and a connected read-back of what was read gives that very role. */
  lemma ReadBackIff(role: PortRole, written: bool, readBack: Option<string>)
    requires role.GetTag() != ModeTag
    ensures SwitchPlainRole(role, written, readBack)
       <==> written && readBack.Some? && GetCurrentRole(role.GetTag(), true, None, readBack) == Success(role)
  {
    hide ExtractRole, Trim;
  }

  /** A mode is written with the text of the power role that goes with it; all others have the text of none. */
  lemma ModeTexts(mode: PortMode, power: PowerRole)
    ensures ConvertRoleToString(Mode(mode)) == ConvertRoleToString(Power(power)) <==>
            power == match mode case Ufp => Sink case Dfp => Source case _ => NoPower
  {
  }

  // ---------- Trimming ----------

  /** White space only: blank, tab, line feed, vertical tab, form feed and carriage return. */
  predicate Blank(s: string) {
    forall c :: c in s ==> c in " \t\n\U{000B}\U{000C}\r"
  }

  /** Neither its first nor its last character is white space. */
  predicate Tight(s: string) {
    s == [] || (!Blank([s[0]]) && !Blank([s[|s| - 1]]))
  }

  lemma SpaceIsBlank(c: char)
    ensures IsSpace(c) <==> Blank([c])
  {
    if IsSpace(c) && c != ' ' {
      assert c as int == 9 || c as int == 10 || c as int == 11 || c as int == 12 || c as int == 13;
    }
    if Blank([c]) { assert c in [c]; }
  }

  /** Trimming takes all white space at both ends away, and nothing else: t is what is left exactly if it is tight and
      white space on both sides makes up the text. */
  lemma TrimIff(s: string, t: string)
    ensures Trim(s) == t <==> Tight(t) && exists pre, post :: Blank(pre) && Blank(post) && s == pre + t + post
  {
    hide *;
    TrimTakes(s);
    if pre: string, post: string :| Tight(t) && Blank(pre) && Blank(post) && s == pre + t + post {
      TrimLeaves(pre, t, post);
    }
  }

  lemma {:induction false} LeftTakes(s: string) returns (pre: string)
    ensures Blank(pre) && s == pre + TrimLeft(s) && (TrimLeft(s) == [] || !IsSpace(TrimLeft(s)[0]))
  {
    if s != [] && IsSpace(s[0]) {
      hide IsSpace, Blank;
      pre := LeftTakes(s[1..]);
      SpaceIsBlank(s[0]);
      BlankParts([s[0]], pre);
      assert s == [s[0]] + s[1..];
      pre := [s[0]] + pre;
    } else {
      pre := [];
    }
  }

  lemma {:induction false} RightTakes(s: string) returns (post: string)
    ensures Blank(post) && s == TrimRight(s) + post && (TrimRight(s) == [] || !IsSpace(TrimRight(s)[|TrimRight(s)| - 1]))
    ensures TrimRight(s) != [] ==> TrimRight(s)[0] == s[0]
  {
    if s != [] && IsSpace(s[|s| - 1]) {
      hide IsSpace, Blank;
      var c := s[|s| - 1];
      post := RightTakes(s[..|s| - 1]);
      SpaceIsBlank(c);
      BlankParts(post, [c]);
      assert s == s[..|s| - 1] + [c];
      post := post + [c];
    } else {
      post := [];
    }
  }

  lemma BlankParts(s: string, t: string)
    ensures Blank(s + t) <==> Blank(s) && Blank(t)
  {
    if Blank(s + t) {
      forall c | c in s || c in t ensures c in " \t\n\U{000B}\U{000C}\r" { assert c in s + t; }
    }
  }

  lemma TrimTakes(s: string)
    ensures Tight(Trim(s)) && exists pre, post :: Blank(pre) && Blank(post) && s == pre + Trim(s) + post
  {
    hide TrimLeft, TrimRight, IsSpace, Blank;
    var t := TrimLeft(s);
    var pre := LeftTakes(s);
    var post := RightTakes(t);
    assert s == pre + Trim(s) + post;
    if Trim(s) != [] {
      SpaceIsBlank(Trim(s)[0]);
      SpaceIsBlank(Trim(s)[|Trim(s)| - 1]);
    }
  }

  lemma {:induction false} LeftLeaves(pre: string, t: string)
    requires Blank(pre) && (t == [] || !IsSpace(t[0]))
    ensures TrimLeft(pre + t) == t
  {
    hide IsSpace, Blank;
    if pre == [] {
      assert pre + t == t;
    } else {
      assert pre == [pre[0]] + pre[1..] && (pre + t)[1..] == pre[1..] + t;
      BlankParts([pre[0]], pre[1..]);
      SpaceIsBlank(pre[0]);
      LeftLeaves(pre[1..], t);
    }
  }

  lemma {:induction false} RightLeaves(t: string, post: string)
    requires Blank(post) && (t == [] || !IsSpace(t[|t| - 1]))
    ensures TrimRight(t + post) == t
  {
    hide IsSpace, Blank;
    if post == [] {
      assert t + post == t;
    } else {
      var n := |post| - 1;
      assert post == post[..n] + [post[n]] && (t + post)[..|t + post| - 1] == t + post[..n];
      BlankParts(post[..n], [post[n]]);
      SpaceIsBlank(post[n]);
      RightLeaves(t, post[..n]);
    }
  }

  lemma TrimLeaves(pre: string, t: string, post: string)
    requires Tight(t) && Blank(pre) && Blank(post)
    ensures Trim(pre + t + post) == t
  {
    assert Blank("");
    hide TrimLeft, TrimRight, IsSpace, Blank;
    if t == [] {
      BlankParts(pre, post);
      var b := pre + post;
      assert pre + t + post == b + [] == b;
      LeftLeaves(b, []);
      RightLeaves([], []);
      assert TrimLeft(b) == [] && [] + [] == t;
    } else {
      SpaceIsBlank(t[0]);
      SpaceIsBlank(t[|t| - 1]);
      assert pre + t + post == pre + (t + post) && (t + post)[0] == t[0];
      LeftLeaves(pre, t + post);
      RightLeaves(t, post);
    }
  }

  // ---------- The replies ----------

  /** Text that names a role of another kind than a tag asks for. */
  predicate NamesOther(tag: Tag, text: string) {
    match tag
    case PowerTag => text == "host" || text == "device"
    case DataTag => text == "source" || text == "sink"
    case ModeTag => text == "source" || text == "sink"
  }

  /** Whether getCurrentRoleHelper gets as far as the text of the node. */
  predicate ReadsNode(tag: Tag, connected: bool, accessory: Option<string>, node: Option<string>) {
    && connected && node.Some?
    && (tag == ModeTag ==>
          accessory.Some? && Trim(accessory.value) != "analog_audio" && Trim(accessory.value) != "debug")
  }

  /** A port without a partner has the role none of the kind asked for, whatever its nodes hold. */
  lemma DisconnectedReply(accessory: Option<string>, node: Option<string>)
    ensures GetCurrentRole(PowerTag, false, accessory, node) == Success(Power(NoPower))
    ensures GetCurrentRole(DataTag, false, accessory, node) == Success(Data(NoData))
    ensures GetCurrentRole(ModeTag, false, accessory, node) == Success(Mode(NoMode))
  {
  }

  predicate IsAccessory(tag: Tag, accessory: Option<string>, name: string) {
    tag == ModeTag && accessory.Some? && Trim(accessory.value) == name
  }

  /** The replies of a connected port, each exactly when it is given: the accessories from the accessory node, an error
      where a node that is needed cannot be read, and otherwise by the text of the node. */
  lemma ConnectedReply(tag: Tag, accessory: Option<string>, node: Option<string>)
    ensures var reply, readsIt := GetCurrentRole(tag, true, accessory, node), ReadsNode(tag, true, accessory, node);
            var text := if node.Some? then ExtractRole(Trim(node.value)) else "";
            && (reply == Success(Mode(AudioAccessory)) <==> IsAccessory(tag, accessory, "analog_audio"))
            && (reply == Success(Mode(DebugAccessory)) <==> IsAccessory(tag, accessory, "debug"))
            && (reply == Error <==>
                  (tag == ModeTag && accessory == None) ||
                  (node == None && !IsAccessory(tag, accessory, "analog_audio") && !IsAccessory(tag, accessory, "debug")))
            && (reply == UnrecognizedRole <==> readsIt && text !in {"source", "sink", "host", "device", "none"})
            && (reply == Success(Power(Source)) <==> readsIt && text == "source")
            && (reply == Success(Power(Sink)) <==> readsIt && text == "sink")
            && (reply == Success(Data(Host)) <==> readsIt && tag == DataTag && text == "host")
            && (reply == Success(Data(Device)) <==> readsIt && tag == DataTag && text == "device")
            && (reply == Success(Mode(Dfp)) <==> readsIt && tag != DataTag && text == "host")
            && (reply == Success(Mode(Ufp)) <==> readsIt && tag != DataTag && text == "device")
            && ((reply in {Success(Power(NoPower)), Success(Data(NoData)), Success(Mode(NoMode))}) <==> readsIt && text == "none")
            && (readsIt && text == "none" ==> reply.role.GetTag() == tag)
  {
    hide ExtractRole, Trim;
  }

  /** A reply is of the kind that was asked for if and only if the text read names no role of another kind. Modes are
      read from data_role, so power roles there would not be theirs, and a power role read as "host" comes back as a
      mode. */
  lemma ReplyKeepsKindIff(tag: Tag, connected: bool, accessory: Option<string>, node: Option<string>)
    ensures var reply := GetCurrentRole(tag, connected, accessory, node);
            reply.Success? ==>
              (reply.role.GetTag() == tag
               <==> !(ReadsNode(tag, connected, accessory, node) && NamesOther(tag, ExtractRole(Trim(node.value)))))
  {
    hide ExtractRole, Trim;
  }

  /** The two modes that can be written are told apart on data_role by the data role that goes with them. */
  lemma ModeOnDataRole(role: DataRole, node: string, accessory: string)
    requires ExtractRole(Trim(node)) == ConvertRoleToString(Data(role))
    requires Trim(accessory) != "analog_audio" && Trim(accessory) != "debug"
    ensures GetCurrentRole(ModeTag, true, Some(accessory), Some(node)) ==
            Success(Mode(match role case Host => Dfp case Device => Ufp case NoData => NoMode))
  {
    hide ExtractRole, Trim;
  }
}
