/** The two text parsers of classes/EnhancedArkRcon.php that read RCON command
    output: the `listplayers` player list (getPlayerList) and the MaxPlayers
    figure in the `GetGameLog` output (getMaxPlayers). Each regular
    expression is written out as the deterministic scan it amounts to. */
module RconText {
  import opened Wrappers
  import opened PhpText

  datatype PlayerInfo = PlayerInfo(name: string, eosId: string)

  datatype PlayerListResult = PlayerListResult(count: int, players: seq<PlayerInfo>)

  /** The line that `listplayers` prints for an empty server. */
  const NoPlayersMarker: string := "No Players Connected"

  /** `[a-f0-9]` under the /i flag. */
  const HexChars: set<char> := {'0', '1', '2', '3', '4', '5', '6', '7', '8', '9',
                                'a', 'b', 'c', 'd', 'e', 'f', 'A', 'B', 'C', 'D', 'E', 'F'}

  function Min(a: int, b: int): int {
    if a < b then a else b
  }

  /** /^\d+\.\s*([^,]+),\s*([a-f0-9]+)\s*$/i on one line, then trim() of both
      groups. The name group runs from after the leading blanks (keeping at
      least one character) up to the first comma after the dot; the id group
      is the run of hex digits that, with blanks on either side, fills the
      rest of the line. */
  function MatchPlayerLine(line: string): Option<PlayerInfo>
  {
    var d := LeadCount(line, Digits);
    if d == 0 || d == |line| || line[d] != '.' then None
    else MatchAfterDot(line[d + 1..])
  }

  /** The part of the pattern after `^\d+\.`: the name group ends at the first comma. */
  function MatchAfterDot(rest: string): Option<PlayerInfo>
  {
    match IndexOf(rest, ',')
    case None => None
    case Some(c) =>
      if c == 0 then None
      else match IdGroupOf(rest[c + 1..])
        case None => None
        case Some(id) => Some(PlayerInfo(NameGroupOf(rest[..c]), id))
  }

  /** `\s*([^,]+)` over the text before the comma, trimmed: the leading
      blanks go to `\s*` except that the group keeps at least one character. */
  function NameGroupOf(seg: string): string
    requires |seg| > 0
  {
    Trim(seg[Min(LeadCount(seg, RegexSpace), |seg| - 1)..])
  }

  /** `\s*([a-f0-9]+)\s*$` over the text after the comma, trimmed. */
  function IdGroupOf(tail: string): Option<string>
  {
    var w := LeadCount(tail, RegexSpace);
    var h := LeadCount(tail[w..], HexChars);
    if h == 0 || LeadCount(tail[w + h..], RegexSpace) != |tail| - w - h then None
    else Some(Trim(tail[w..w + h]))
  }

  /** What getPlayerList makes of one output line: the trimmed line is
      skipped when empty() or when it mentions the no-players marker, and is
      otherwise matched. */
  function PlayerOfLine(line: string): Option<PlayerInfo>
  {
    var t := Trim(line);
    if IsEmptyString(t) || Contains(t, NoPlayersMarker) then None else MatchPlayerLine(t)
  }

  /** The values `f` gives for the elements of `xs` it keeps, in order. */
  function Kept<X, Y>(f: X -> Option<Y>, xs: seq<X>): seq<Y>
  {
    if |xs| == 0 then []
    else
      var earlier := Kept(f, xs[..|xs| - 1]);
      match f(xs[|xs| - 1])
      case None => earlier
      case Some(y) => earlier + [y]
  }

  /** The players of a sequence of lines, in line order. */
  function PlayersOf(lines: seq<string>): seq<PlayerInfo>
  {
    Kept(PlayerOfLine, lines)
  }

  /** The lines getPlayerList walks: the trimmed output split on "\n". */
  function OutputLines(output: string): seq<string> {
    Split(Trim(output), '\n')
  }

  /** The loop of getPlayerList: every line in order, a player appended for
      each matching one; the count is the length of the list. */
  method ParsePlayerList(output: string) returns (r: PlayerListResult)
    ensures r.players == PlayersOf(OutputLines(output))
    ensures r.count == |r.players|
  {
    var lines := OutputLines(output);
    var players: seq<PlayerInfo> := [];
    var i := 0;
    while i < |lines|
      invariant 0 <= i <= |lines|
      invariant players == PlayersOf(lines[..i])
    {
      assert lines[..i + 1][..i] == lines[..i];
      var found := PlayerOfLine(lines[i]);
      if found.Some? {
        players := players + [found.value];
      }
      i := i + 1;
    }
    assert lines[..i] == lines;
    r := PlayerListResult(|players|, players);
  }

  /** Players come out in input order: the players of two blocks of lines are
      those of the first block followed by those of the second. */
  lemma PlayersOfConcat(a: seq<string>, b: seq<string>)
    ensures PlayersOf(a + b) == PlayersOf(a) + PlayersOf(b)
  {
    KeptConcat(PlayerOfLine, a, b);
  }

  lemma {:induction false} KeptConcat<X, Y>(f: X -> Option<Y>, a: seq<X>, b: seq<X>)
    ensures Kept(f, a + b) == Kept(f, a) + Kept(f, b)
    decreases |b|
  {
    if |b| == 0 {
      assert a + b == a;
    } else {
      var b' := b[..|b| - 1];
      assert (a + b)[..|a + b| - 1] == a + b';
      KeptConcat(f, a, b');
    }
  }

  /** The line `listplayers` prints for player number `i`. */
  function PlayerLine(i: nat, p: PlayerInfo): string {
    NatToString(i) + ". " + p.name + ", " + p.eosId
  }

  /** A player whose line the parser can read back: a name that is not
      blank, holds no comma or newline and has no surrounding blanks, and an
      id of hex digits. */
  predicate Printable(p: PlayerInfo) {
    && |p.name| > 0
    && ',' !in p.name
    && '\n' !in p.name
    && p.name[0] !in RegexSpace + TrimChars
    && p.name[|p.name| - 1] !in TrimChars
    && |p.eosId| > 0
    && (forall j :: 0 <= j < |p.eosId| ==> p.eosId[j] in HexChars)
  }

  /** The name group: after the one blank the line puts before the name,
      the group is the name itself. */
  lemma NameGroup(name: string)
    requires |name| > 0 && name[0] !in RegexSpace + TrimChars && name[|name| - 1] !in TrimChars
    ensures NameGroupOf([' '] + name) == name
  {
    var seg := [' '] + name;
    LeadCountPrefix([' '], name, RegexSpace);
    assert seg[1..] == name;
    StripNoop(name, TrimChars);
  }

  /** The id group: after one blank, the whole hex run, and nothing after it. */
  lemma IdGroup(id: string)
    requires |id| > 0 && forall j :: 0 <= j < |id| ==> id[j] in HexChars
    ensures IdGroupOf([' '] + id) == Some(id)
  {
    var tail := [' '] + id;
    LeadCountPrefix([' '], id, RegexSpace);
    assert tail[1..] == id + [];
    LeadCountPrefix(id, [], HexChars);
    assert tail[1 + |id|..] == [];
    assert tail[1..1 + |id|] == id;
    StripNoop(id, TrimChars);
  }

  /** `^\d+\.` consumes a number and its dot. */
  lemma MatchAfterNumber(num: string, rest: string)
    requires |num| > 0 && forall j :: 0 <= j < |num| ==> num[j] in Digits
    ensures MatchPlayerLine(num + (['.'] + rest)) == MatchAfterDot(rest)
  {
    var line := num + (['.'] + rest);
    LeadCountPrefix(num, ['.'] + rest, Digits);
    assert line[|num|] == '.';
    assert line[|num| + 1..] == rest;
  }

  /** The name group ends at the first comma. */
  lemma MatchAtComma(seg: string, tail: string)
    requires |seg| > 0 && ',' !in seg
    requires IdGroupOf(tail).Some?
    ensures MatchAfterDot(seg + [','] + tail) == Some(PlayerInfo(NameGroupOf(seg), IdGroupOf(tail).value))
  {
    var rest := seg + [','] + tail;
    IndexOfAfterFree(seg, ',', tail);
    assert rest[..|seg|] == seg;
    assert rest[|seg| + 1..] == tail;
  }

  /** The pattern reads back the name and the id after any number. */
  lemma MatchNumberedLine(num: string, p: PlayerInfo)
    requires |num| > 0 && forall j :: 0 <= j < |num| ==> num[j] in Digits
    requires Printable(p)
    ensures MatchPlayerLine(num + ". " + p.name + ", " + p.eosId) == Some(p)
  {
    var rest := [' '] + p.name + [','] + [' '] + p.eosId;
    assert num + ". " + p.name + ", " + p.eosId == num + (['.'] + rest);
    MatchAfterName(p);
    MatchAfterNumber(num, rest);
  }

  /** After the dot, " name, id" reads back the player. */
  lemma MatchAfterName(p: PlayerInfo)
    requires Printable(p)
    ensures MatchAfterDot([' '] + p.name + [','] + [' '] + p.eosId) == Some(p)
  {
    var seg := [' '] + p.name;
    var tail := [' '] + p.eosId;
    assert [' '] + p.name + [','] + [' '] + p.eosId == seg + [','] + tail;
    IdGroup(p.eosId);
    NameGroup(p.name);
    assert ',' !in seg;
    MatchAtComma(seg, tail);
  }

  /** The pattern reads back the name and the id of a printed player line. */
  lemma MatchPrintedLine(i: nat, p: PlayerInfo)
    requires Printable(p)
    ensures MatchPlayerLine(PlayerLine(i, p)) == Some(p)
  {
    var num := NatToString(i);
    assert forall j :: 0 <= j < |num| ==> num[j] in Digits;
    MatchNumberedLine(num, p);
  }

  /** A printed line survives the per-line trimming and skipping rules. */
  lemma PrintedLineKept(i: nat, p: PlayerInfo)
    requires Printable(p)
    requires !Contains(PlayerLine(i, p), NoPlayersMarker)
    ensures PlayerOfLine(PlayerLine(i, p)) == Some(p)
  {
    var line := PlayerLine(i, p);
    var num := NatToString(i);
    assert line[0] == num[0];
    assert line[|line| - 1] == p.eosId[|p.eosId| - 1];
    StripNoop(line, TrimChars);
    MatchPrintedLine(i, p);
  }

  /** The lines `listplayers` prints for a list of players, numbered from 1. */
  function PrintedLines(ps: seq<PlayerInfo>): (lines: seq<string>)
    ensures |lines| == |ps|
  {
    seq(|ps|, j requires 0 <= j < |ps| => PlayerLine(j + 1, ps[j]))
  }

  /** Lines each of which yields its own player give exactly those players, in order. */
  lemma PlayersOfKept(lines: seq<string>, ps: seq<PlayerInfo>)
    requires |lines| == |ps|
    requires forall j :: 0 <= j < |lines| ==> PlayerOfLine(lines[j]) == Some(ps[j])
    ensures PlayersOf(lines) == ps
  {
    KeptAll(PlayerOfLine, lines, ps);
  }

  lemma {:induction false} KeptAll<X, Y>(f: X -> Option<Y>, xs: seq<X>, ys: seq<Y>)
    requires |xs| == |ys|
    requires forall j :: 0 <= j < |xs| ==> f(xs[j]) == Some(ys[j])
    ensures Kept(f, xs) == ys
  {
    if |xs| > 0 {
      var n := |xs| - 1;
      KeptAll(f, xs[..n], ys[..n]);
      assert ys[..n] + [ys[n]] == ys;
    }
  }

  /** A numbered player line holds no newline, starts with a digit and ends
      with a hex digit. */
  lemma NumberedLineShape(num: string, p: PlayerInfo)
    requires |num| > 0 && forall j :: 0 <= j < |num| ==> IsDigit(num[j])
    requires Printable(p)
    ensures var line := num + ". " + p.name + ", " + p.eosId;
      '\n' !in line && IsDigit(line[0]) && line[|line| - 1] in HexChars
  {
    var line := num + ". " + p.name + ", " + p.eosId;
    assert line == num + (". " + p.name + ", ") + p.eosId;
    assert '\n' !in num;
    assert '\n' !in p.eosId;
  }

  /** A line the output can carry and trim() leaves alone. */
  predicate CarriedLine(line: string) {
    && |line| > 0
    && '\n' !in line
    && line[0] !in TrimChars
    && line[|line| - 1] !in TrimChars
  }

  lemma PrintedLineCarried(i: nat, p: PlayerInfo)
    requires Printable(p)
    ensures CarriedLine(PlayerLine(i, p))
  {
    NumberedLineShape(NatToString(i), p);
  }

  /** Output made of carried lines is split back into those lines. */
  lemma CarriedLinesSplitBack(lines: seq<string>)
    requires |lines| > 0
    requires forall j :: 0 <= j < |lines| ==> CarriedLine(lines[j])
    ensures OutputLines(Join(lines, '\n')) == lines
  {
    assert forall j :: 0 <= j < |lines| ==> |lines[j]| > 0 && '\n' !in lines[j];
    var out := Join(lines, '\n');
    var last := lines[|lines| - 1];
    JoinHeadLast(lines, '\n');
    assert out[0] == lines[0][0] && out[|out| - 1] == last[|last| - 1];
    assert out[0] !in TrimChars && out[|out| - 1] !in TrimChars;
    StripNoop(out, TrimChars);
    assert Trim(out) == out;
    SplitJoin(lines, '\n');
  }

  /** The output a server prints for a non-empty player list parses back to
      exactly that list, in order. */
  lemma PlayerListRoundTrip(ps: seq<PlayerInfo>)
    requires |ps| > 0
    requires forall j :: 0 <= j < |ps| ==> Printable(ps[j])
    requires forall j :: 0 <= j < |ps| ==> !Contains(PlayerLine(j + 1, ps[j]), NoPlayersMarker)
    ensures PlayersOf(OutputLines(Join(PrintedLines(ps), '\n'))) == ps
  {
    var lines := PrintedLines(ps);
    forall j | 0 <= j < |lines|
      ensures CarriedLine(lines[j])
    {
      PrintedLineCarried(j + 1, ps[j]);
    }
    CarriedLinesSplitBack(lines);
    forall j | 0 <= j < |lines|
      ensures PlayerOfLine(lines[j]) == Some(ps[j])
    {
      PrintedLineKept(j + 1, ps[j]);
    }
    PlayersOfKept(lines, ps);
  }

  /** A line mentioning the no-players marker gives no player. */
  lemma MarkerLineSkipped(line: string)
    requires Contains(Trim(line), NoPlayersMarker)
    ensures PlayersOf([line]) == []
  {
    assert [line][..0] == [];
    assert PlayerOfLine(line).None?;
    assert Kept(PlayerOfLine, [line]) == Kept(PlayerOfLine, []);
  }

  /** An empty server's output yields no players. */
  lemma NoPlayersOutput()
    ensures PlayersOf(OutputLines(NoPlayersMarker)) == []
  {
    var t := NoPlayersMarker;
    StripNoop(t, TrimChars);
    assert '\n' !in t;
    assert OutputLines(t) == [t];
    assert OccursAt(t, NoPlayersMarker, 0);
    MarkerLineSkipped(t);
  }

  /** `[:\s]`. */
  const MaxPlayersSeparators: set<char> := RegexSpace + {':'}

  /** /MaxPlayers[:\s]+(\d+)/i tried at position `i`: the marker in any
      letter case, at least one colon or blank, then the maximal digit run,
      read by `(int)`, which saturates. */
  function MaxPlayersAt(s: string, i: nat): Option<nat>
    requires i <= |s|
  {
    if |s| - i < 10 || ToLower(s[i..i + 10]) != "maxplayers" then None
    else
      var after := s[i + 10..];
      var sep := LeadCount(after, MaxPlayersSeparators);
      var digits := LeadCount(after[sep..], Digits);
      if sep == 0 || digits == 0 then None
      else Some(SaturatingCast(DigitsValue(after[sep..sep + digits])) as nat)
  }

  /** preg_match's leftmost match, searching from position `i`. */
  function FindMaxPlayers(s: string, i: nat): Option<nat>
    requires i <= |s|
    decreases |s| - i
  {
    if i == |s| then None
    else match MaxPlayersAt(s, i)
      case Some(v) => Some(v)
      case None => FindMaxPlayers(s, i + 1)
  }

  /** The server capacity getMaxPlayers falls back to. */
  const DefaultMaxPlayers: nat := 150

  /** What getMaxPlayers makes of a `GetGameLog` reply. */
  function MaxPlayersOf(output: string): nat {
    match FindMaxPlayers(output, 0)
    case Some(v) => v
    case None => DefaultMaxPlayers
  }

  /** The search returns the match at the first position where the pattern matches. */
  lemma {:induction false} FindFirstMatch(s: string, i: nat, j: nat)
    requires i <= j < |s|
    requires MaxPlayersAt(s, j).Some?
    requires forall k :: i <= k < j ==> MaxPlayersAt(s, k).None?
    ensures FindMaxPlayers(s, i) == MaxPlayersAt(s, j)
    decreases j - i
  {
    if i < j {
      FindFirstMatch(s, i + 1, j);
    }
  }

  /** Without a match anywhere the search finds nothing. */
  lemma {:induction false} FindNoMatch(s: string, i: nat)
    requires i <= |s|
    requires forall k :: i <= k < |s| ==> MaxPlayersAt(s, k).None?
    ensures FindMaxPlayers(s, i).None?
    decreases |s| - i
  {
    if i < |s| {
      FindNoMatch(s, i + 1);
    }
  }

  /** The capacity is the default exactly when no position matches. */
  lemma MaxPlayersDefault(output: string)
    requires forall k :: 0 <= k < |output| ==> MaxPlayersAt(output, k).None?
    ensures MaxPlayersOf(output) == DefaultMaxPlayers
  {
    FindNoMatch(output, 0);
  }

  /** "MaxPlayers: n" at the start of the reply yields n, whatever follows
      as long as it does not continue the number; a figure beyond the int
      range saturates, and one past the double range reads as 0. */
  lemma MaxPlayersPrinted(n: nat, more: string)
    requires |more| > 0 ==> !IsDigit(more[0])
    ensures MaxPlayersOf("MaxPlayers: " + NatToString(n) + more) == SaturatingCast(n)
    ensures n <= IntMax ==> MaxPlayersOf("MaxPlayers: " + NatToString(n) + more) == n
    ensures IntMax < n < DoubleOverflow ==> MaxPlayersOf("MaxPlayers: " + NatToString(n) + more) == IntMax
    ensures n >= DoubleOverflow ==> MaxPlayersOf("MaxPlayers: " + NatToString(n) + more) == 0
  {
    var s := "MaxPlayers: " + NatToString(n) + more;
    MaxPlayersAtStart(n, more);
    FindFirstMatch(s, 0, 0);
  }

  lemma MaxPlayersAtStart(n: nat, more: string)
    requires |more| > 0 ==> !IsDigit(more[0])
    ensures MaxPlayersAt("MaxPlayers: " + NatToString(n) + more, 0) == Some(SaturatingCast(n) as nat)
  {
    var num := NatToString(n);
    var s := "MaxPlayers: " + num + more;
    PrintedPieces(num, more);
    MatchAtStart(s, 2, |num|);
    DigitsValueOfNatToString(n);
  }

  /** The marker, the ": " separator and the digit run of a printed line. */
  lemma PrintedPieces(num: string, more: string)
    requires |num| > 0 && forall j :: 0 <= j < |num| ==> IsDigit(num[j])
    requires |more| > 0 ==> !IsDigit(more[0])
    ensures var s := "MaxPlayers: " + num + more;
      && |s| >= 10 && ToLower(s[0..10]) == "maxplayers"
      && LeadCount(s[10..], MaxPlayersSeparators) == 2
      && LeadCount(s[10..][2..], Digits) == |num|
      && s[10..][2..2 + |num|] == num
  {
    var s := "MaxPlayers: " + num + more;
    assert |s| >= 10 && ToLower(s[0..10]) == "maxplayers" by {
      LowerMaxPlayers(s[0..10]);
    }
    var after := s[10..];
    var rest := num + more;
    assert LeadCount(after, MaxPlayersSeparators) == 2 && after[2..] == rest by {
      assert after == ": " + rest;
      SeparatorRun(rest);
    }
    assert LeadCount(after[2..], Digits) == |num| && after[2..2 + |num|] == num by {
      DigitRunLength(num, more);
      assert rest[..|num|] == num;
      assert after[2..2 + |num|] == rest[..|num|];
    }
  }

  /** The pattern matches at 0 given the marker, a separator run and a digit run. */
  lemma MatchAtStart(s: string, sep: nat, digits: nat)
    requires |s| >= 10 && ToLower(s[0..10]) == "maxplayers"
    requires sep > 0 && LeadCount(s[10..], MaxPlayersSeparators) == sep
    requires digits > 0 && LeadCount(s[10..][sep..], Digits) == digits
    ensures MaxPlayersAt(s, 0) == Some(SaturatingCast(DigitsValue(s[10..][sep..sep + digits])) as nat)
  {
  }

  /** The spelling the server prints lower-cases to the needle. The word is
      a parameter so that `ToLower` is not unfolded over a literal. */
  lemma LowerMaxPlayers(w: string)
    requires w == "MaxPlayers"
    ensures ToLower(w) == "maxplayers"
  {
    var r := ToLower(w);
    assert r[0] == LowerChar('M') == 'm';
    assert r[3] == LowerChar('P') == 'p';
    assert r == [r[0], w[1], w[2], r[3], w[4], w[5], w[6], w[7], w[8], w[9]];
  }

  lemma SeparatorRun(rest: string)
    requires |rest| > 0 && IsDigit(rest[0])
    ensures LeadCount(": " + rest, MaxPlayersSeparators) == 2
  {
    DigitsAreDigits(rest[0]);
    LeadCountPrefix(": ", rest, MaxPlayersSeparators);
  }

  lemma DigitRunLength(num: string, more: string)
    requires forall j :: 0 <= j < |num| ==> IsDigit(num[j])
    requires |more| > 0 ==> !IsDigit(more[0])
    ensures LeadCount(num + more, Digits) == |num|
  {
    forall j | 0 <= j < |num|
      ensures num[j] in Digits
    {
      DigitsAreDigits(num[j]);
    }
    if |more| > 0 {
      DigitsAreDigits(more[0]);
    }
    LeadCountPrefix(num, more, Digits);
  }
}
