/**
 * The small helpers of utils/misc.py: `human_time`, `formatted_timestamp`,
 * `dict_to_simple_namespace` and the fixed shape of `EMOTE_REGEX`.
 */
module Misc {
  import opened Text

  // ---------------------------------------------------------------------------
  // human_time
  // ---------------------------------------------------------------------------

  const Minute: int := 60
  const Hour: int := Minute * 60
  const Day: int := Hour * 24
  const Week: int := Day * 7

  /** A second count split into the five units `human_time` prints. */
  datatype Duration = Duration(weeks: int, days: int, hours: int, minutes: int, seconds: int)

  function TotalSeconds(d: Duration): int {
    d.weeks * Week + d.days * Day + d.hours * Hour + d.minutes * Minute + d.seconds
  }

  /**
   * The chain of `divmod` calls, with Python's floor division (which agrees
   * with Dafny's for the positive unit sizes used here).
   */
  function Decompose(total: int): (d: Duration)
    ensures TotalSeconds(d) == total
    ensures 0 <= d.days < 7 && 0 <= d.hours < 24 && 0 <= d.minutes < 60 && 0 <= d.seconds < 60
    ensures total >= 0 ==> d.weeks >= 0
  {
    var weeks, r1 := total / Week, total % Week;
    var days, r2 := r1 / Day, r1 % Day;
    var hours, r3 := r2 / Hour, r2 % Hour;
    var minutes, r4 := r3 / Minute, r3 % Minute;
    Duration(weeks, days, hours, minutes, r4)
  }

  /** The piece printed for one unit: the value and its suffix, or nothing when the value is zero. */
  function Piece(value: int, suffix: char): seq<string> {
    if value != 0 then [IntToString(value) + [suffix]] else []
  }

  /** The non-zero units in the order weeks, days, hours, minutes, seconds. */
  function Pieces(d: Duration): seq<string> {
    Piece(d.weeks, 'w') + (Piece(d.days, 'd') + (Piece(d.hours, 'h') + (Piece(d.minutes, 'm') + Piece(d.seconds, 's'))))
  }

  function Render(d: Duration): string {
    Join(Pieces(d), " ")
  }

  /** `human_time(seconds)`. */
  method HumanTime(seconds: int) returns (text: string)
    ensures text == Render(Decompose(seconds))
  {
    ghost var d := Decompose(seconds);
    var parts: seq<string> := [];
    var rest := seconds;
    var weeks, days, hours, minutes;
    weeks, rest := rest / Week, rest % Week;
    days, rest := rest / Day, rest % Day;
    hours, rest := rest / Hour, rest % Hour;
    minutes, rest := rest / Minute, rest % Minute;
    assert Duration(weeks, days, hours, minutes, rest) == d;

    if weeks != 0 {
      parts := parts + [IntToString(weeks) + "w"];
    }
    assert parts == Piece(weeks, 'w');
    if days != 0 {
      parts := parts + [IntToString(days) + "d"];
    }
    assert parts == Piece(weeks, 'w') + Piece(days, 'd');
    if hours != 0 {
      parts := parts + [IntToString(hours) + "h"];
    }
    assert parts == Piece(weeks, 'w') + Piece(days, 'd') + Piece(hours, 'h');
    if minutes != 0 {
      parts := parts + [IntToString(minutes) + "m"];
    }
    assert parts == Piece(weeks, 'w') + Piece(days, 'd') + Piece(hours, 'h') + Piece(minutes, 'm');
    if rest != 0 {
      parts := parts + [IntToString(rest) + "s"];
    }
    assert parts == Piece(weeks, 'w') + Piece(days, 'd') + Piece(hours, 'h') + Piece(minutes, 'm') + Piece(rest, 's');
    ConcatAssociative(Piece(weeks, 'w'), Piece(days, 'd'), Piece(hours, 'h'), Piece(minutes, 'm'), Piece(rest, 's'));
    text := Join(parts, " ");
  }

  lemma ConcatAssociative(a: seq<string>, b: seq<string>, c: seq<string>, d: seq<string>, e: seq<string>)
    ensures a + b + c + d + e == a + (b + (c + (d + e)))
  {
  }

  // A strict reader of the format `human_time` writes: space-separated pieces,
  // each a non-zero integer followed by a unit suffix, units strictly in the
  // order w, d, h, m, s, and every unit but weeks below its carry bound.

  const Suffixes: string := "wdhms"

  function UnitSize(rank: nat): int
    requires rank < 5
  {
    [Week, Day, Hour, Minute, 1][rank]
  }

  /** Exclusive upper bound of a unit's value; weeks (rank 0) are unbounded. */
  function UnitBound(rank: nat): int
    requires 0 < rank < 5
  {
    [0, 7, 24, 60, 60][rank]
  }

  function SuffixRank(c: char): Option<nat> {
    if c == 'w' then Some(0)
    else if c == 'd' then Some(1)
    else if c == 'h' then Some(2)
    else if c == 'm' then Some(3)
    else if c == 's' then Some(4)
    else None
  }

  /** A piece's unit rank and value, when it is a well-formed piece. */
  function ReadPiece(t: string): Option<(nat, int)> {
    if |t| < 2 then None
    else
      match SuffixRank(t[|t| - 1])
      case None => None
      case Some(rank) =>
        match ParseInt(t[..|t| - 1])
        case None => None
        case Some(v) =>
          if v != 0 && (rank > 0 ==> 0 < v < UnitBound(rank)) then Some((rank, v)) else None
  }

  /** Total of the pieces `ts`, whose units must all have rank `next` or more and strictly increase. */
  function ReadPieces(ts: seq<string>, next: nat): Option<int> {
    if ts == [] then Some(0)
    else
      match ReadPiece(ts[0])
      case None => None
      case Some((rank, v)) =>
        if rank < next then None
        else
          match ReadPieces(ts[1..], rank + 1)
          case None => None
          case Some(x) => Some(v * UnitSize(rank) + x)
  }

  function ReadHumanTime(s: string): Option<int> {
    if s == "" then Some(0) else ReadPieces(Split(s, ' '), 0)
  }

  lemma ReadPiecesWeaker(ts: seq<string>, a: nat, b: nat, x: int)
    requires a <= b && ReadPieces(ts, b) == Some(x)
    ensures ReadPieces(ts, a) == Some(x)
  {
  }

  lemma ReadPiecesStep(v: int, rank: nat, u: char, rest: seq<string>, next: nat, x: int)
    requires next <= rank < 5 && SuffixRank(u) == Some(rank)
    requires ReadPieces(rest, rank + 1) == Some(x)
    requires rank > 0 ==> 0 <= v < UnitBound(rank)
    ensures ReadPieces(Piece(v, u) + rest, next) == Some(v * UnitSize(rank) + x)
  {
    if v == 0 {
      assert Piece(v, u) + rest == rest;
      ReadPiecesWeaker(rest, next, rank + 1, x);
    } else {
      var t := IntToString(v) + [u];
      var ts := Piece(v, u) + rest;
      assert ts[0] == t && ts[1..] == rest;
      assert t[..|t| - 1] == IntToString(v);
      IntToStringRoundTrip(v);
      assert ReadPiece(t) == Some((rank, v));
    }
  }

  // The pieces read back unit by unit, from seconds up to weeks.

  lemma SecondsRead(sec: int)
    requires 0 <= sec < 60
    ensures ReadPieces(Piece(sec, 's'), 4) == Some(sec)
  {
    ReadPiecesStep(sec, 4, 's', [], 4, 0);
    assert Piece(sec, 's') + [] == Piece(sec, 's');
  }

  lemma MinutesRead(min: int, sec: int)
    requires 0 <= min < 60 && 0 <= sec < 60
    ensures ReadPieces(Piece(min, 'm') + Piece(sec, 's'), 3) == Some(min * Minute + sec)
  {
    SecondsRead(sec);
    ReadPiecesStep(min, 3, 'm', Piece(sec, 's'), 3, sec);
  }

  lemma HoursRead(h: int, min: int, sec: int)
    requires 0 <= h < 24 && 0 <= min < 60 && 0 <= sec < 60
    ensures ReadPieces(Piece(h, 'h') + (Piece(min, 'm') + Piece(sec, 's')), 2)
         == Some(h * Hour + min * Minute + sec)
  {
    MinutesRead(min, sec);
    ReadPiecesStep(h, 2, 'h', Piece(min, 'm') + Piece(sec, 's'), 2, min * Minute + sec);
  }

  lemma DaysRead(dd: int, h: int, min: int, sec: int)
    requires 0 <= dd < 7 && 0 <= h < 24 && 0 <= min < 60 && 0 <= sec < 60
    ensures ReadPieces(Piece(dd, 'd') + (Piece(h, 'h') + (Piece(min, 'm') + Piece(sec, 's'))), 1)
         == Some(dd * Day + h * Hour + min * Minute + sec)
  {
    HoursRead(h, min, sec);
    ReadPiecesStep(dd, 1, 'd', Piece(h, 'h') + (Piece(min, 'm') + Piece(sec, 's')), 1, h * Hour + min * Minute + sec);
  }

  lemma WeeksRead(w: int, dd: int, h: int, min: int, sec: int)
    requires 0 <= dd < 7 && 0 <= h < 24 && 0 <= min < 60 && 0 <= sec < 60
    ensures ReadPieces(Piece(w, 'w') + (Piece(dd, 'd') + (Piece(h, 'h') + (Piece(min, 'm') + Piece(sec, 's')))), 0)
         == Some(w * Week + (dd * Day + h * Hour + min * Minute + sec))
  {
    DaysRead(dd, h, min, sec);
    ReadPiecesStep(w, 0, 'w', Piece(dd, 'd') + (Piece(h, 'h') + (Piece(min, 'm') + Piece(sec, 's'))), 0, dd * Day + h * Hour + min * Minute + sec);
  }

  lemma PiecesRead(d: Duration)
    requires 0 <= d.days < 7 && 0 <= d.hours < 24 && 0 <= d.minutes < 60 && 0 <= d.seconds < 60
    ensures ReadPieces(Pieces(d), 0) == Some(TotalSeconds(d))
  {
    WeeksRead(d.weeks, d.days, d.hours, d.minutes, d.seconds);
  }

  /** A printed piece: at least a digit and a suffix, no space, ending in a unit suffix. */
  predicate WellShaped(t: string) {
    |t| >= 2 && ' ' !in t && t[|t| - 1] in Suffixes
  }

  lemma PieceWellShaped(v: int, u: char)
    requires u in Suffixes
    ensures forall k :: 0 <= k < |Piece(v, u)| ==> WellShaped(Piece(v, u)[k])
  {
    if v != 0 {
      var t := IntToString(v) + [u];
      assert forall j :: 0 <= j < |t| ==> t[j] != ' ' by {
        forall j | 0 <= j < |t| ensures t[j] != ' ' {
          if j < |t| - 1 {
            assert t[j] == IntToString(v)[j];
          }
        }
      }
      assert WellShaped(t);
    }
  }

  lemma PiecesWellShaped(d: Duration)
    ensures forall k :: 0 <= k < |Pieces(d)| ==> WellShaped(Pieces(d)[k])
  {
    PieceWellShaped(d.weeks, 'w');
    PieceWellShaped(d.days, 'd');
    PieceWellShaped(d.hours, 'h');
    PieceWellShaped(d.minutes, 'm');
    PieceWellShaped(d.seconds, 's');
  }

  lemma DecomposeZero()
    ensures Pieces(Decompose(0)) == []
  {
    assert Decompose(0) == Duration(0, 0, 0, 0, 0);
  }

  lemma RenderNonEmpty(d: Duration)
    requires Pieces(d) != []
    ensures Render(d) != ""
  {
    PiecesWellShaped(d);
    JoinStartsWithFirst(Pieces(d), " ");
  }

  /** Reading back what `human_time` writes gives the original second count. */
  lemma HumanTimeRoundTrip(seconds: int)
    ensures ReadHumanTime(Render(Decompose(seconds))) == Some(seconds)
  {
    var d := Decompose(seconds);
    var ps := Pieces(d);
    PiecesRead(d);
    if ps == [] {
      assert Render(d) == "";
    } else {
      PiecesWellShaped(d);
      SplitJoin(ps, ' ');
      RenderNonEmpty(d);
    }
  }

  /** `human_time` prints the empty string exactly for zero. */
  lemma HumanTimeEmptyIffZero(seconds: int)
    ensures Render(Decompose(seconds)) == "" <==> seconds == 0
  {
    var d := Decompose(seconds);
    if Pieces(d) == [] {
      assert |Piece(d.weeks, 'w')| == 0 && |Piece(d.days, 'd')| == 0 && |Piece(d.hours, 'h')| == 0;
      assert |Piece(d.minutes, 'm')| == 0 && |Piece(d.seconds, 's')| == 0;
      assert d == Duration(0, 0, 0, 0, 0);
    } else {
      RenderNonEmpty(d);
      DecomposeZero();
    }
  }

  lemma JoinEndsWithLast(parts: seq<string>, sep: string)
    requires |parts| > 0
    ensures var j := Join(parts, sep); var l := parts[|parts| - 1];
            |l| <= |j| && j[|j| - |l|..] == l
  {
  }

  /** The printed text neither starts nor ends with a space. */
  lemma HumanTimeTrimmed(seconds: int)
    ensures var s := Render(Decompose(seconds));
            s != "" ==> s[0] != ' ' && s[|s| - 1] != ' '
  {
    var d := Decompose(seconds);
    var ps := Pieces(d);
    if ps != [] {
      PiecesWellShaped(d);
      assert WellShaped(ps[0]) && WellShaped(ps[|ps| - 1]);
      JoinStartsWithFirst(ps, " ");
      JoinEndsWithLast(ps, " ");
    }
  }

  // ---------------------------------------------------------------------------
  // formatted_timestamp
  // ---------------------------------------------------------------------------

  /** A chat-platform timestamp tag, `<t:timestamp:mode>`, relative ("R") by default. */
  function FormattedTimestamp(timestamp: int, mode: string := "R"): string {
    "<t:" + IntToString(timestamp) + ":" + mode + ">"
  }

  function ReadTimestamp(s: string): Option<(int, string)> {
    if |s| < 4 || s[..3] != "<t:" || s[|s| - 1] != '>' then None
    else
      var body := s[3..|s| - 1];
      var k := FirstIndex(body, ':');
      if k == |body| then None
      else
        match ParseInt(body[..k])
        case None => None
        case Some(t) => Some((t, body[k + 1..]))
  }

  /** The timestamp and the mode can be read back from the tag, whatever the mode holds. */
  lemma TimestampRoundTrip(timestamp: int, mode: string)
    ensures ReadTimestamp(FormattedTimestamp(timestamp, mode)) == Some((timestamp, mode))
    ensures FormattedTimestamp(timestamp) == FormattedTimestamp(timestamp, "R")
  {
    var digits := IntToString(timestamp);
    var s := FormattedTimestamp(timestamp, mode);
    var body := digits + ":" + mode;
    assert s[..3] == "<t:";
    assert s[3..|s| - 1] == body;
    assert ':' !in digits;
    FirstIndexAfter(digits, ':', mode);
    assert body == digits + [':'] + mode;
    assert body[..|digits|] == digits && body[|digits| + 1..] == mode;
    IntToStringRoundTrip(timestamp);
  }

  // ---------------------------------------------------------------------------
  // dict_to_simple_namespace
  // ---------------------------------------------------------------------------

  /**
   * The Python values the conversion distinguishes: dictionaries (string keys,
   * insertion order kept), namespaces, lists and any other value.
   */
  datatype PyValue =
    | Atom(repr: string)
    | List(elems: seq<PyValue>)
    | Dict(items: seq<(string, PyValue)>)
    | Namespace(attrs: seq<(string, PyValue)>)

  /** `dict_to_simple_namespace(d)`: dictionaries become namespaces, recursively through their values. */
  function DictToSimpleNamespace(v: PyValue): (r: PyValue)
    ensures !v.Dict? ==> r == v
    ensures v.Dict? ==> r.Namespace? && |r.attrs| == |v.items|
    ensures v.Dict? ==> forall i :: 0 <= i < |v.items| ==> r.attrs[i].0 == v.items[i].0
    ensures !r.Dict?
  {
    match v
    case Dict(items) =>
      Namespace(seq(|items|, i requires 0 <= i < |items| => (items[i].0, DictToSimpleNamespace(items[i].1))))
    case _ => v
  }

  /** The inverse direction: namespaces back to dictionaries, recursively through their attributes. */
  function NamespaceToDict(v: PyValue): PyValue {
    match v
    case Namespace(attrs) =>
      Dict(seq(|attrs|, i requires 0 <= i < |attrs| => (attrs[i].0, NamespaceToDict(attrs[i].1))))
    case _ => v
  }

  /** Data with no namespace reachable through dictionary values, as parsed JSON is. */
  predicate PlainData(v: PyValue) {
    match v
    case Namespace(_) => false
    case Dict(items) => forall i :: 0 <= i < |items| ==> PlainData(items[i].1)
    case _ => true
  }

  /** No dictionary is reachable through namespace attributes. */
  predicate NamespaceTree(v: PyValue) {
    match v
    case Dict(_) => false
    case Namespace(attrs) => forall i :: 0 <= i < |attrs| ==> NamespaceTree(attrs[i].1)
    case _ => true
  }

  /** Every nested dictionary has become a namespace, and converting back restores the input. */
  lemma {:induction false} DictToSimpleNamespaceRoundTrip(v: PyValue)
    requires PlainData(v)
    ensures NamespaceTree(DictToSimpleNamespace(v))
    ensures NamespaceToDict(DictToSimpleNamespace(v)) == v
  {
    match v
    case Dict(items) =>
      var r := DictToSimpleNamespace(v);
      forall i | 0 <= i < |items|
        ensures NamespaceTree(r.attrs[i].1)
        ensures NamespaceToDict(r.attrs[i].1) == items[i].1
      {
        DictToSimpleNamespaceRoundTrip(items[i].1);
      }
      var back := NamespaceToDict(r);
      assert back.items == items;
    case _ =>
  }

  // ---------------------------------------------------------------------------
  // EMOTE_REGEX: <a?:[a-zA-Z0-9_]+:[0-9]+>
  // ---------------------------------------------------------------------------

  /** A custom emote reference: animated flag, name and numeric id. */
  datatype Emote = Emote(animated: bool, name: string, id: string)

  predicate IsNameChar(c: char) {
    ('a' <= c <= 'z') || ('A' <= c <= 'Z') || ('0' <= c <= '9') || c == '_'
  }

  predicate ValidEmote(e: Emote) {
    |e.name| > 0 && (forall k :: 0 <= k < |e.name| ==> IsNameChar(e.name[k])) && IsDigits(e.id)
  }

  /** `:name:id`, the part after the optional `a`. */
  function NameAndIdText(name: string, id: string): string {
    ":" + name + ":" + id
  }

  /** What sits between the angle brackets: the optional `a`, then `:name:id`. */
  function EmoteBody(e: Emote): string {
    (if e.animated then "a" else "") + NameAndIdText(e.name, e.id)
  }

  function EmoteText(e: Emote): string {
    "<" + EmoteBody(e) + ">"
  }

  /** Recogniser for the whole of a string against the emote pattern. */
  function ParseEmote(s: string): Option<Emote> {
    if |s| < 2 || s[0] != '<' || s[|s| - 1] != '>' then None else ParseEmoteBody(s[1..|s| - 1])
  }

  /** The part between the angle brackets: an optional `a`, then the rest. */
  function ParseEmoteBody(body: string): Option<Emote> {
    if |body| > 0 && body[0] == 'a' then ParseNameAndId(true, body[1..]) else ParseNameAndId(false, body)
  }

  /** `:name:id`, with the name ending at the first colon. */
  function ParseNameAndId(animated: bool, rest: string): Option<Emote> {
    if |rest| == 0 || rest[0] != ':' then None
    else
      var tail := rest[1..];
      var k := FirstIndex(tail, ':');
      if k == |tail| then None
      else
        var e := Emote(animated, tail[..k], tail[k + 1..]);
        if ValidEmote(e) then Some(e) else None
  }

  lemma ParseNameAndIdSound(animated: bool, rest: string)
    ensures ParseNameAndId(animated, rest).Some? ==>
      var e := ParseNameAndId(animated, rest).value;
      ValidEmote(e) && e.animated == animated && rest == NameAndIdText(e.name, e.id)
  {
    if ParseNameAndId(animated, rest).Some? {
      var e := ParseNameAndId(animated, rest).value;
      var tail := rest[1..];
      var k := FirstIndex(tail, ':');
      assert tail == tail[..k] + ":" + tail[k + 1..];
      assert rest == ":" + tail;
    }
  }

  lemma ParseNameAndIdComplete(animated: bool, name: string, id: string)
    requires ValidEmote(Emote(animated, name, id))
    ensures ParseNameAndId(animated, NameAndIdText(name, id)) == Some(Emote(animated, name, id))
  {
    var rest := NameAndIdText(name, id);
    var tail := name + [':'] + id;
    assert rest[1..] == tail;
    assert ':' !in name by {
      forall j | 0 <= j < |name| ensures name[j] != ':' {
        assert IsNameChar(name[j]);
      }
    }
    FirstIndexAfter(name, ':', id);
    assert tail[..|name|] == name && tail[|name| + 1..] == id;
  }

  lemma Bracketed(s: string)
    requires |s| >= 2
    ensures s == [s[0]] + s[1..|s| - 1] + [s[|s| - 1]]
  {
  }

  lemma Unbracket(body: string)
    ensures var s := "<" + body + ">";
            |s| >= 2 && s[0] == '<' && s[|s| - 1] == '>' && s[1..|s| - 1] == body
  {
  }

  /** What the recogniser accepts is a well-formed emote written out exactly. */
  lemma ParseEmoteSound(s: string)
    ensures ParseEmote(s).Some? ==> ValidEmote(ParseEmote(s).value) && EmoteText(ParseEmote(s).value) == s
  {
    if ParseEmote(s).Some? {
      var body := s[1..|s| - 1];
      var e := ParseEmote(s).value;
      assert body == EmoteBody(e) by {
        if |body| > 0 && body[0] == 'a' {
          ParseNameAndIdSound(true, body[1..]);
          assert body == "a" + body[1..];
        } else {
          ParseNameAndIdSound(false, body);
        }
      }
      Bracketed(s);
    }
  }

  lemma EmoteBodyRead(e: Emote)
    requires ValidEmote(e)
    ensures ParseEmoteBody(EmoteBody(e)) == Some(e)
  {
    var rest := NameAndIdText(e.name, e.id);
    var body := EmoteBody(e);
    ParseNameAndIdComplete(e.animated, e.name, e.id);
    if e.animated {
      assert body[0] == 'a' && body[1..] == rest;
    } else {
      assert body == rest && body[0] == ':';
    }
  }

  /** Every well-formed emote is accepted, and read back as itself. */
  lemma ParseEmoteComplete(e: Emote)
    requires ValidEmote(e)
    ensures ParseEmote(EmoteText(e)) == Some(e)
  {
    Unbracket(EmoteBody(e));
    EmoteBodyRead(e);
  }
}
