/** Resource identities (model/target.go): normal forms, and IDs that are
    printed with percent-encoding (section 2.1 of RFC 3986) and parsed back. */
module Target {
  import opened Text
  import opened Decimal

  const DEFAULT_CONTEXT := "default"
  const DEFAULT_NAMESPACE := "/service"
  const CLUSTER_PREFIX := "patroni:cluster/"
  const MEMBER_PREFIX := "patroni:member/"
  const LEGACY_CLUSTER_PREFIX := "boar:cluster/"
  const LEGACY_MEMBER_PREFIX := "boar:member/"

  datatype Target = Target(context: string, namespace: string, scope: string, group: Option<int>, member: string)

  // ---- normal form ----

  /** The trimmed, non-empty pieces between slashes. */
  function Components(parts: seq<string>): seq<string> {
    if parts == [] then []
    else
      var rest := Components(parts[1..]);
      var part := TrimSpace(parts[0]);
      if part == "" then rest else [part] + rest
  }

  predicate Clean(p: string) { p != "" && Trimmed(p) && '/' !in p }

  lemma {:induction false} ComponentsAreClean(parts: seq<string>)
    requires forall p :: p in parts ==> '/' !in p
    ensures forall p :: p in Components(parts) ==> Clean(p)
  {
    hide Trimmed, TrimSpace;
    if parts != [] {
      assert forall p :: p in parts[1..] ==> p in parts;
      ComponentsAreClean(parts[1..]);
      TrimSpaceIsTrimmed(parts[0]);
      TrimSpaceKeepsOut(parts[0], '/');
    }
  }

  lemma TrimSpaceKeepsOut(s: string, c: char)
    ensures c !in s ==> c !in TrimSpace(s)
  {
    hide TrimSpace;
    TrimSpaceIsTrimmed(s);
  }

  function NormalizeNamespace(namespace: string): string {
    var parts := Components(Split(TrimSpace(namespace), '/'));
    if parts == [] then DEFAULT_NAMESPACE else "/" + Join(parts, "/")
  }

  function Normalize(t: Target): Target {
    var context := TrimSpace(t.context);
    Target(if context == "" then DEFAULT_CONTEXT else context,
           NormalizeNamespace(t.namespace), TrimSpace(t.scope), t.group, TrimSpace(t.member))
  }

  /** The loop of NormalizeNamespace over the raw path segments. */
  method NormalizeNamespaceLoop(namespace: string) returns (normal: string)
    ensures normal == NormalizeNamespace(namespace)
  {
    hide Trimmed, TrimSpace;
    var raw := Split(TrimSpace(namespace), '/');
    var parts: seq<string> := [];
    var i := 0;
    while i < |raw|
      invariant i <= |raw|
      invariant parts + Components(raw[i..]) == Components(raw)
    {
      var part := TrimSpace(raw[i]);
      assert raw[i..][1..] == raw[i + 1..];
      if part != "" {
        parts := parts + [part];
      }
      i := i + 1;
    }
    assert Components(raw[i..]) == [] && parts + [] == parts;
    if parts == [] {
      return DEFAULT_NAMESPACE;
    }
    normal := "/" + Join(parts, "/");
  }

  predicate InvalidIdentityPart(value: string) {
    exists i :: 0 <= i < |value| && (value[i] == '\0' || value[i] == '\n' || value[i] == '\r')
  }

  datatype TargetError = ControlCharacter | MissingScope | NegativeGroup

  /** Validate: None means valid. */
  function Validate(target: Target, requireScope: bool): Option<TargetError> {
    var t := Normalize(target);
    if InvalidIdentityPart(t.context) || InvalidIdentityPart(t.namespace) then Some(ControlCharacter)
    else if requireScope && t.scope == "" then Some(MissingScope)
    else if InvalidIdentityPart(t.scope) then Some(ControlCharacter)
    else if t.member != "" && t.scope == "" then Some(MissingScope)
    else if InvalidIdentityPart(t.member) then Some(ControlCharacter)
    else if t.group.Some? && t.group.value < 0 then Some(NegativeGroup)
    else None
  }

  // ---- percent-encoding ----

  predicate IsBytes(s: string) {
    forall i :: 0 <= i < |s| ==> s[i] as int < 256
  }

  /** The bytes url.PathEscape leaves alone. */
  predicate Plain(c: char) {
    || 'a' <= c <= 'z' || 'A' <= c <= 'Z' || '0' <= c <= '9'
    || c == '-' || c == '_' || c == '.' || c == '~'
    || c == '$' || c == '&' || c == '+' || c == ':' || c == '=' || c == '@'
  }

  function HexDigit(d: nat): char
    requires d < 16
  {
    if d < 10 then ('0' as int + d) as char else ('A' as int + d - 10) as char
  }

  function HexValue(c: char): Option<nat> {
    if '0' <= c <= '9' then Some(c as int - '0' as int)
    else if 'a' <= c <= 'f' then Some(c as int - 'a' as int + 10)
    else if 'A' <= c <= 'F' then Some(c as int - 'A' as int + 10)
    else None
  }

  function EscapeByte(c: char): string
    requires c as int < 256
  {
    if Plain(c) then [c] else ['%', HexDigit(c as int / 16), HexDigit(c as int % 16)]
  }

  function PathEscape(s: string): string
    requires IsBytes(s)
  {
    if s == "" then "" else EscapeByte(s[0]) + PathEscape(s[1..])
  }

  function PathUnescape(s: string): Option<string> {
    if s == "" then Some("")
    else if s[0] == '%' then
      if |s| < 3 then None
      else match (HexValue(s[1]), HexValue(s[2]), PathUnescape(s[3..]))
        case (Some(high), Some(low), Some(rest)) => Some([(16 * high + low) as char] + rest)
        case _ => None
    else match PathUnescape(s[1..])
      case Some(rest) => Some([s[0]] + rest)
      case None => None
  }

  lemma {:induction false} UnescapeEscape(s: string)
    requires IsBytes(s)
    ensures PathUnescape(PathEscape(s)) == Some(s)
    ensures '/' !in PathEscape(s)
  {
    hide EscapeByte, PathUnescape;
    if s == "" {
      UnescapeNothing();
    } else {
      UnescapeEscape(s[1..]);
      UnescapeByte(s[0], PathEscape(s[1..]), s[1..]);
      assert s == [s[0]] + s[1..];
    }
  }

  lemma UnescapeNothing()
    ensures PathUnescape("") == Some("")
  {
  }

  /** One escaped byte reads back as itself. */
  lemma UnescapeByte(c: char, tail: string, plain: string)
    requires c as int < 256 && PathUnescape(tail) == Some(plain)
    ensures PathUnescape(EscapeByte(c) + tail) == Some([c] + plain)
    ensures '/' !in EscapeByte(c)
  {
    var escaped := EscapeByte(c) + tail;
    if Plain(c) {
      PlainByte(c);
      assert escaped[0] == c && escaped[1..] == tail;
    } else {
      HexRoundTrip(c as int);
      assert escaped[0] == '%' && escaped[3..] == tail;
      assert escaped[1] == EscapeByte(c)[1] && escaped[2] == EscapeByte(c)[2];
      UnescapeTriple(escaped, tail, plain, c);
    }
  }

  lemma PlainByte(c: char)
    requires Plain(c)
    ensures c != '%' && c != '/'
  {
  }

  lemma UnescapeTriple(escaped: string, tail: string, plain: string, c: char)
    requires c as int < 256 && PathUnescape(tail) == Some(plain) && |escaped| >= 3 && escaped[0] == '%'
             && escaped[3..] == tail
    requires HexValue(escaped[1]) == Some(c as int / 16) && HexValue(escaped[2]) == Some(c as int % 16)
    ensures PathUnescape(escaped) == Some([c] + plain)
  {
    hide HexValue;
  }

  lemma HexRoundTrip(b: nat)
    requires b < 256
    ensures HexValue(HexDigit(b / 16)) == Some(b / 16) && HexValue(HexDigit(b % 16)) == Some(b % 16)
    ensures HexDigit(b / 16) != '/' && HexDigit(b % 16) != '/'
  {
  }

  lemma {:induction false} UnescapePlain(s: string)
    requires forall i :: 0 <= i < |s| ==> s[i] != '%'
    ensures PathUnescape(s) == Some(s)
  {
    if s != "" {
      UnescapePlain(s[1..]);
      assert s == [s[0]] + s[1..];
    }
  }

  // ---- IDs ----

  function GroupText(group: Option<int>): (s: string)
    ensures '/' !in s && '%' !in s
  {
    match group
    case None => "-"
    case Some(g) => FormatIntIsPlain(g); FormatInt(g)
  }

  lemma FormatIntIsPlain(n: int)
    ensures '/' !in FormatInt(n) && '%' !in FormatInt(n)
  {
    var digits := Itoa(if n >= 0 then n else -n);
    assert forall i :: 0 <= i < |digits| ==> IsDigit(digits[i]);
  }

  ghost predicate Encodable(t: Target) {
    IsBytes(t.context) && IsBytes(t.namespace) && IsBytes(t.scope) && IsBytes(t.member)
  }

  /** The escaped segments of an ID, from a normalized target. */
  function Segments(t: Target): seq<string>
    requires Encodable(t)
  {
    [PathEscape(t.context), PathEscape(t.namespace), PathEscape(t.scope), GroupText(t.group)]
  }

  function ClusterID(t: Target): string
    requires Encodable(Normalize(t))
  {
    CLUSTER_PREFIX + Join(Segments(Normalize(t)), "/")
  }

  function MemberID(t: Target): string
    requires Encodable(Normalize(t))
  {
    var n := Normalize(t);
    if n.member == "" then "" else MEMBER_PREFIX + Join(Segments(n) + [PathEscape(n.member)], "/")
  }

  datatype ParseError =
    | UnknownPrefix | WrongSegmentCount | BadEscape | BadGroup | EmptySegment
    | InvalidTarget(reason: TargetError)

  function UnescapeAll(parts: seq<string>): Option<seq<string>> {
    if parts == [] then Some([])
    else match (PathUnescape(parts[0]), UnescapeAll(parts[1..]))
      case (Some(head), Some(tail)) => Some([head] + tail)
      case _ => None
  }

  function ParseSegments(encoded: string, member: bool): Result<Target, ParseError> {
    var parts := Split(encoded, '/');
    if |parts| != (if member then 5 else 4) then Err(WrongSegmentCount)
    else match UnescapeAll(parts)
      case None => Err(BadEscape)
      case Some(decoded) =>
        UnescapeAllLength(parts);
        var group := if decoded[3] == "-" then Some(None) else match Atoi(decoded[3]) case Some(g) =>
              Some(Some(g)) case None => None;
        match group
        case None => Err(BadGroup)
        case Some(g) =>
          var t := Normalize(Target(decoded[0], decoded[1], decoded[2], g, if member then decoded[4] else ""));
          if t.context == "" || t.namespace == "" || t.scope == "" || (member && t.member == "") then Err(EmptySegment)
          else match Validate(t, true)
            case Some(reason) => Err(InvalidTarget(reason))
            case None => Ok(t)
  }

  function ParseTargetID(value: string): Result<Target, ParseError> {
    if CLUSTER_PREFIX <= value then ParseSegments(TrimPrefix(value, CLUSTER_PREFIX), false)
    else if MEMBER_PREFIX <= value then ParseSegments(TrimPrefix(value, MEMBER_PREFIX), true)
    else if LEGACY_CLUSTER_PREFIX <= value then ParseSegments(TrimPrefix(value, LEGACY_CLUSTER_PREFIX), false)
    else if LEGACY_MEMBER_PREFIX <= value then ParseSegments(TrimPrefix(value, LEGACY_MEMBER_PREFIX), true)
    else Err(UnknownPrefix)
  }

  lemma UnescapeAllLength(parts: seq<string>)
    ensures UnescapeAll(parts).Some? ==> |UnescapeAll(parts).value| == |parts|
  {
  }

  // ---- idempotence ----

  /** Text that starts with a slash and ends with a trimmed piece after a slash
      is trimmed as a whole. */
  lemma TrimmedAfterSlash(s: string, tail: string)
    requires s != "" && s[0] == '/'
    requires Trimmed(tail) && |tail| < |s|
    requires s[|s| - |tail|..] == tail && s[|s| - |tail| - 1] == '/'
    ensures Trimmed(s)
  {
    hide IsSpace;
    forall n: nat | 1 <= n <= 3
      ensures !StartsInSpace(s, n) && !EndsInSpace(s, n)
    {
      if n <= |s| {
        GraphicIsNotSpace(s[..n], 0);
        var suffix := s[|s| - n..];
        if n <= |tail| {
          assert suffix == tail[|tail| - n..];
          assert !EndsInSpace(tail, n);
        } else {
          GraphicIsNotSpace(suffix, n - |tail| - 1);
        }
      }
    }
  }

  lemma {:induction false} JoinEndsInLast(parts: seq<string>)
    requires |parts| >= 1 && forall p :: p in parts ==> p != ""
    ensures var s := "/" + Join(parts, "/"); var last := parts[|parts| - 1];
            |last| < |s| && s[|s| - |last|..] == last && s[|s| - |last| - 1] == '/'
  {
    if |parts| > 1 {
      assert forall p :: p in parts[1..] ==> p in parts;
      JoinEndsInLast(parts[1..]);
      assert "/" + Join(parts, "/") == "/" + parts[0] + ("/" + Join(parts[1..], "/"));
    }
  }

  lemma {:induction false} ComponentsOfClean(parts: seq<string>)
    requires forall p :: p in parts ==> Clean(p)
    ensures Components(parts) == parts
  {
    hide Trimmed, TrimSpace;
    if parts != [] {
      assert forall p :: p in parts[1..] ==> p in parts;
      ComponentsOfClean(parts[1..]);
      assert parts[0] in parts && Clean(parts[0]);
      TrimSpaceOfTrimmed(parts[0]);
      assert parts == [parts[0]] + parts[1..];
    }
  }

  lemma SplitRooted(parts: seq<string>)
    requires |parts| >= 1 && forall p :: p in parts ==> '/' !in p
    ensures Split("/" + Join(parts, "/"), '/') == [""] + parts
  {
    SplitJoin(parts, '/');
    SplitCons("", Join(parts, "/"), '/');
    assert "/" + Join(parts, "/") == "" + ['/'] + Join(parts, "/");
  }

  lemma RootedIsTrimmed(parts: seq<string>)
    requires |parts| >= 1 && forall p :: p in parts ==> Clean(p)
    ensures TrimSpace("/" + Join(parts, "/")) == "/" + Join(parts, "/")
  {
    hide Trimmed, TrimSpace;
    JoinEndsInLast(parts);
    assert Clean(parts[|parts| - 1]);
    TrimmedAfterSlash("/" + Join(parts, "/"), parts[|parts| - 1]);
    TrimSpaceOfTrimmed("/" + Join(parts, "/"));
  }

  lemma NormalizeNamespaceOfClean(parts: seq<string>)
    requires |parts| >= 1 && forall p :: p in parts ==> Clean(p)
    ensures NormalizeNamespace("/" + Join(parts, "/")) == "/" + Join(parts, "/")
  {
    hide Trimmed, TrimSpace, Split, Join;
    RootedIsTrimmed(parts);
    SplitRooted(parts);
    ComponentsOfClean(parts);
    TrimSpaceOfEmpty();
    assert ([""] + parts)[1..] == parts;
    assert Components([""] + parts) == parts;
  }

  lemma TrimSpaceOfEmpty()
    ensures TrimSpace("") == ""
  {
  }

  lemma NormalizeNamespaceIdempotent(namespace: string)
    ensures NormalizeNamespace(NormalizeNamespace(namespace)) == NormalizeNamespace(namespace)
    ensures NormalizeNamespace(namespace) != ""
  {
    hide Trimmed, TrimSpace;
    var parts := Components(Split(TrimSpace(namespace), '/'));
    if parts == [] {
      GraphicEndsTrimmed("service");
      assert "/" + Join(["service"], "/") == DEFAULT_NAMESPACE;
      NormalizeNamespaceOfClean(["service"]);
    } else {
      ComponentsAreClean(Split(TrimSpace(namespace), '/'));
      NormalizeNamespaceOfClean(parts);
    }
  }

  lemma NormalizeIdempotent(t: Target)
    ensures Normalize(Normalize(t)) == Normalize(t)
  {
    hide TrimSpace, NormalizeNamespace;
    NormalizeNamespaceIdempotent(t.namespace);
    GraphicEndsTrimmed(DEFAULT_CONTEXT);
    TrimSpaceOfTrimmed(DEFAULT_CONTEXT);
    TrimSpaceIdempotent(t.context);
    TrimSpaceIdempotent(t.scope);
    TrimSpaceIdempotent(t.member);
  }

  // ---- round trips ----

  lemma SplitSegments(t: Target)
    requires Encodable(t)
    ensures Split(Join(Segments(t), "/"), '/') == Segments(t)
    ensures Split(Join(Segments(t) + [PathEscape(t.member)], "/"), '/') == Segments(t) + [PathEscape(t.member)]
  {
    UnescapeEscape(t.context);
    UnescapeEscape(t.namespace);
    UnescapeEscape(t.scope);
    UnescapeEscape(t.member);
    SplitJoin(Segments(t), '/');
    SplitJoin(Segments(t) + [PathEscape(t.member)], '/');
  }

  lemma UnescapeSegments(t: Target)
    requires Encodable(t)
    ensures UnescapeAll(Segments(t)) == Some([t.context, t.namespace, t.scope, GroupText(t.group)])
    ensures UnescapeAll(Segments(t) + [PathEscape(t.member)])
            == Some([t.context, t.namespace, t.scope, GroupText(t.group), t.member])
  {
    hide PathEscape, GroupText;
    UnescapeEscape(t.context);
    UnescapeEscape(t.namespace);
    UnescapeEscape(t.scope);
    UnescapeEscape(t.member);
    UnescapePlain(GroupText(t.group));
    var escaped := Segments(t) + [PathEscape(t.member)];
    var plain := [t.context, t.namespace, t.scope, GroupText(t.group), t.member];
    UnescapeAllPointwise(escaped, plain);
    assert plain[..4] == [t.context, t.namespace, t.scope, GroupText(t.group)];
    UnescapeAllPointwise(Segments(t), plain[..4]);
  }

  lemma {:induction false} UnescapeAllPointwise(escaped: seq<string>, plain: seq<string>)
    requires |escaped| == |plain|
    requires forall i :: 0 <= i < |escaped| ==> PathUnescape(escaped[i]) == Some(plain[i])
    ensures UnescapeAll(escaped) == Some(plain)
  {
    if escaped != [] {
      UnescapeAllPointwise(escaped[1..], plain[1..]);
      assert plain == [plain[0]] + plain[1..];
    }
  }

  /** Targets a Go process can hold: byte strings and a 64-bit group. */
  ghost predicate Representable(t: Target) {
    Encodable(Normalize(t)) && (t.group.Some? ==> t.group.value <= MAX_INT)
  }

  lemma ParseClusterID(t: Target)
    requires Representable(t) && Validate(t, true).None?
    ensures ParseTargetID(ClusterID(t)) == Ok(Normalize(t).(member := ""))
  {
    hide TrimSpace, NormalizeNamespace, PathEscape, PathUnescape, Split, Join;
    var n := Normalize(t);
    NormalizeIdempotent(t);
    TrimSpaceOfEmpty();
    SplitSegments(n);
    UnescapeSegments(n);
    assert TrimPrefix(ClusterID(t), CLUSTER_PREFIX) == Join(Segments(n), "/");
    if n.group.Some? {
      AtoiItoa(n.group.value);
    }
    NormalizeNamespaceIdempotent(t.namespace);
  }

  lemma ParseMemberID(t: Target)
    requires Representable(t) && Validate(t, true).None? && Normalize(t).member != ""
    ensures ParseTargetID(MemberID(t)) == Ok(Normalize(t))
  {
    hide TrimSpace, NormalizeNamespace, PathEscape, PathUnescape, Split, Join;
    var n := Normalize(t);
    NormalizeIdempotent(t);
    SplitSegments(n);
    UnescapeSegments(n);
    assert !(CLUSTER_PREFIX <= MemberID(t)) by {
      assert MemberID(t)[8] == 'm' && CLUSTER_PREFIX[8] == 'c';
    }
    assert TrimPrefix(MemberID(t), MEMBER_PREFIX) == Join(Segments(n) + [PathEscape(n.member)], "/");
    if n.group.Some? {
      AtoiItoa(n.group.value);
    }
    NormalizeNamespaceIdempotent(t.namespace);
  }

  /** IDs never conflate targets, valid or not. */
  lemma ClusterIDInjective(a: Target, b: Target)
    requires Encodable(Normalize(a)) && Encodable(Normalize(b))
    ensures ClusterID(a) == ClusterID(b) <==> Normalize(a).(member := "") == Normalize(b).(member := "")
  {
    var m, n := Normalize(a), Normalize(b);
    if m.(member := "") == n.(member := "") {
      assert Segments(m) == Segments(n);
    }
    if ClusterID(a) == ClusterID(b) {
      assert ClusterID(a)[|CLUSTER_PREFIX|..] == Join(Segments(m), "/");
      assert ClusterID(b)[|CLUSTER_PREFIX|..] == Join(Segments(n), "/");
      SegmentsInjective(m, n);
    }
  }

  lemma SegmentsInjective(m: Target, n: Target)
    requires Encodable(m) && Encodable(n)
    requires Join(Segments(m), "/") == Join(Segments(n), "/")
    ensures m.(member := "") == n.(member := "")
  {
    SplitSegments(m);
    SplitSegments(n);
    UnescapeSegments(m);
    UnescapeSegments(n);
    var left, right := [m.context, m.namespace, m.scope, GroupText(m.group)],
        [n.context, n.namespace, n.scope, GroupText(n.group)];
    assert left == right;
    assert left[0] == right[0] && left[1] == right[1] && left[2] == right[2] && left[3] == right[3];
    if m.group.Some? && n.group.Some? {
      FormatIntInjective(m.group.value, n.group.value);
    }
  }

  lemma MemberIDInjective(a: Target, b: Target)
    requires Encodable(Normalize(a)) && Encodable(Normalize(b))
    requires Normalize(a).member != ""
    ensures MemberID(a) == MemberID(b) <==> Normalize(a) == Normalize(b)
  {
    var m, n := Normalize(a), Normalize(b);
    if MemberID(a) == MemberID(b) {
      var left, right := Segments(m) + [PathEscape(m.member)], Segments(n) + [PathEscape(n.member)];
      assert MemberID(a)[|MEMBER_PREFIX|..] == Join(left, "/");
      assert MemberID(b)[|MEMBER_PREFIX|..] == Join(right, "/");
      SplitSegments(m);
      SplitSegments(n);
      assert left == right;
      assert left[..4] == Segments(m) && right[..4] == Segments(n);
      SegmentsInjective(m, n);
      assert left[4] == right[4];
      UnescapeEscape(m.member);
      UnescapeEscape(n.member);
    }
  }
}
