/**
  CUE sheets (src/rab/optical.py, `parse_cue`, `_time`, `_sector_size`), on lines that have been decoded,
  stripped and split into tokens.
*/
module Cue {
  import opened Common
  import opened Text

  // ---------------------------------------------------------------- text

  function Number(s: string): nat
    requires forall i :: 0 <= i < |s| ==> '0' <= s[i] <= '9'
  { if s == "" then 0 else 10 * Number(s[..|s| - 1]) + (s[|s| - 1] - '0') as nat }

  function Upper(s: string): string {
    seq(|s|, i requires 0 <= i < |s| => if 'a' <= s[i] <= 'z' then s[i] - 'a' + 'A' else s[i])
  }

  /** `_time`: minutes, two digits of seconds, two digits of frames; only the frames are bounded. */
  function Time(s: string): Option<nat> {
    var m := IndexOf(s, ':');
    if |s| != m + 6 || s[m + 3] != ':' then None else Frames(s[..m], s[m + 1..m + 3], s[m + 4..])
  }

  function Frames(minutes: string, seconds: string, frames: string): Option<nat> {
    if !IsDigits(minutes) || !IsDigits(seconds) || !IsDigits(frames) || 75 <= Number(frames) then None
    else Some(Number(minutes) * 60 * 75 + Number(seconds) * 75 + Number(frames))
  }

  /** `_sector_size`. */
  function SectorSize(mode: string): Option<nat> {
    if mode == "AUDIO" then Some(2352)
    else if 7 <= |mode| && mode[..4] == "MODE" && IsDigits(mode[4..5]) && mode[5] == '/' && IsDigits(mode[6..])
    then Some(Number(mode[6..]))
    else None
  }

  // ---------------------------------------------------------------- discs

  datatype Hashes = Hashes(size: int, sha1: Option<string>, md5: Option<string>, crc32: Option<string>)

  datatype Track = Track(number: nat, session: nat, mode: string, sectorSize: nat, sectorCount: Option<int>, startLba: nat,
                         pregap: Option<nat>, postgap: Option<nat>, indexes: map<string, nat>, file: string,
                         hashes: Option<Hashes>)
  {
    function Audio(): bool { mode == "AUDIO" }
  }

  datatype Session = Session(number: nat, tracks: seq<Track>)

  function AllTracks(sessions: seq<Session>): seq<Track> {
    if sessions == [] then [] else sessions[0].tracks + AllTracks(sessions[1..])
  }

  // ---------------------------------------------------------------- the parser

  /** A blank line, a session remark, another remark, or the tokens of a command. */
  datatype Line = Blank | RemSession(parts: seq<string>) | Rem | Command(parts: seq<string>)

  datatype RawTrack = RawTrack(number: nat, mode: string, sectorSize: nat, indexes: map<string, nat>,
                               pregap: Option<nat>, postgap: Option<nat>, file: Option<string>)

  /** The variables of the line loop. `current` is the track that INDEX, PREGAP and POSTGAP belong to,
      by session and position: a session remark does not change it. */
  datatype State = State(sessions: map<nat, seq<RawTrack>>, session: nat, file: Option<string>, current: Option<(nat, nat)>)
  {
    predicate Valid() {
      current.Some? ==> current.value.0 in sessions && current.value.1 < |sessions[current.value.0]|
    }
  }

  const START := State(map[], 1, None, None)

  function Existing(sessions: map<nat, seq<RawTrack>>, n: nat): seq<RawTrack> { if n in sessions then sessions[n] else [] }

  function SetCurrent(s: State, t: RawTrack): State
    requires s.Valid() && s.current.Some?
  {
    var (n, k) := s.current.value;
    s.(sessions := s.sessions[n := s.sessions[n][k := t]])
  }

  function ReadSession(s: State, parts: seq<string>): Option<State> {
    if |parts| != 3 || !IsDigits(parts[2]) || Number(parts[2]) < 1 then None
    else
      var n := Number(parts[2]);
      Some(s.(session := n, sessions := s.sessions[n := Existing(s.sessions, n)]))
  }

  function ReadTrack(s: State, parts: seq<string>): Option<State> {
    if |parts| != 3 || !IsDigits(parts[1]) then None
    else
      var number, mode, before := Number(parts[1]), Upper(parts[2]), Existing(s.sessions, s.session);
      if number < 1 || exists t :: t in before && t.number == number then None
      else
        match SectorSize(mode)
        case None => None
        case Some(size) =>
          Some(s.(sessions := s.sessions[s.session := before + [RawTrack(number, mode, size, map[], None, None, s.file)]],
                  current := Some((s.session, |before|))))
  }

  function ReadMark(s: State, parts: seq<string>, command: string): Option<State>
    requires s.Valid()
  {
    if s.current == None then None
    else
      var (n, k) := s.current.value;
      var t := s.sessions[n][k];
      if command == "INDEX" then
        if |parts| != 3 || !IsDigits(parts[1]) || Time(parts[2]) == None then None
        else Some(SetCurrent(s, t.(indexes := t.indexes[parts[1] := Time(parts[2]).value])))
      else if |parts| != 2 || Time(parts[1]) == None then None
      else if command == "PREGAP" then Some(SetCurrent(s, t.(pregap := Time(parts[1]))))
      else Some(SetCurrent(s, t.(postgap := Time(parts[1]))))
  }

  /** One line of the loop; None is a RabError. */
  function Read(s: State, line: Line): (r: Option<State>)
    requires s.Valid()
    ensures r.Some? ==> r.value.Valid()
  {
    match line
    case Blank => Some(s)
    case Rem => Some(s)
    case RemSession(parts) => ReadSession(s, parts)
    case Command(parts) =>
      if parts == [] then None
      else
        var command := Upper(parts[0]);
        if command == "FILE" then if |parts| < 2 then None else Some(s.(file := Some(parts[1])))
        else if command == "TRACK" then ReadTrack(s, parts)
        else if command in ["INDEX", "PREGAP", "POSTGAP"] then ReadMark(s, parts, command)
        else Some(s)
  }

  function ReadAll(s: State, lines: seq<Line>): (r: Option<State>)
    requires s.Valid()
    ensures r.Some? ==> r.value.Valid()
    decreases |lines|
  {
    if lines == [] then Some(s)
    else
      match Read(s, lines[0])
      case None => None
      case Some(next) => ReadAll(next, lines[1..])
  }

  /** The line loop. */
  method ReadLines(lines: seq<Line>) returns (r: Option<State>)
    ensures r == ReadAll(START, lines)
  {
    var s := START;
    for i := 0 to |lines|
      invariant s.Valid() && ReadAll(START, lines) == ReadAll(s, lines[i..])
    {
      assert lines[i..][1..] == lines[i + 1..];
      var next := Read(s, lines[i]);
      if next == None {
        return None;
      }
      s := next.value;
    }
    assert lines[|lines|..] == [];
    return Some(s);
  }

  function HashesOf(files: map<string, Hashes>, file: string): Option<Hashes> {
    if file in files then Some(files[file]) else None
  }

  /** The track as it is published; None is a missing INDEX 01 or a division by a zero sector size. */
  function Finish(t: RawTrack, session: nat, files: map<string, Hashes>): Option<Track> {
    var file := match t.file case Some(f) => f case None => "";
    var hashes := HashesOf(files, file);
    var size := if hashes.Some? && hashes.value.size != 0 then Some(hashes.value.size) else None;
    if "01" !in t.indexes || (size.Some? && t.sectorSize == 0) then None
    else
      var count := if size.Some? && size.value % t.sectorSize == 0 then Some(size.value / t.sectorSize) else None;
      Some(Track(t.number, session, t.mode, t.sectorSize, count, t.indexes["01"], t.pregap, t.postgap, t.indexes, file, hashes))
  }

  function FinishAll(ts: seq<RawTrack>, session: nat, files: map<string, Hashes>): Option<seq<Track>> {
    if ts == [] then Some([])
    else
      match (Finish(ts[0], session, files), FinishAll(ts[1..], session, files))
      case (Some(t), Some(rest)) => Some([t] + rest)
      case _ => None
  }

  predicate IsLeast(s: set<nat>, n: nat) { n in s && forall m :: m in s ==> n <= m }

  function Least(s: set<nat>): (n: nat)
    requires s != {}
    ensures IsLeast(s, n)
  {
    LeastExists(s);
    var n :| IsLeast(s, n);
    n
  }

  lemma LeastExists(s: set<nat>)
    requires s != {}
    ensures exists n :: IsLeast(s, n)
  {
    var x :| x in s;
    var rest := s - {x};
    if rest == {} {
      assert s == {x} && IsLeast(s, x);
    } else {
      LeastExists(rest);
      var n :| IsLeast(rest, n);
      var least := if x < n then x else n;
      forall m | m in s
        ensures least <= m
      {
        assert m == x || m in rest;
      }
      assert IsLeast(s, least);
    }
  }

  /** Sessions in ascending order of their numbers. */
  function Ascending(s: set<nat>): seq<nat> {
    if s == {} then [] else [Least(s)] + Ascending(s - {Least(s)})
  }

  function Collect(numbers: seq<nat>, sessions: map<nat, seq<RawTrack>>, files: map<string, Hashes>): Option<seq<Session>>
    requires forall i :: 0 <= i < |numbers| ==> numbers[i] in sessions
  {
    if numbers == [] then Some([])
    else
      match (FinishAll(sessions[numbers[0]], numbers[0], files), Collect(numbers[1..], sessions, files))
      case (Some(tracks), Some(rest)) => Some([Session(numbers[0], tracks)] + rest)
      case _ => None
  }

  lemma {:induction false} AscendingHas(s: set<nat>)
    ensures forall n :: n in Ascending(s) <==> n in s
  {
    if s != {} {
      AscendingHas(s - {Least(s)});
    }
  }

  /** `parse_cue`. */
  function Parse(lines: seq<Line>, files: map<string, Hashes>): Option<seq<Session>> {
    match ReadAll(START, lines)
    case None => None
    case Some(s) =>
      if s.sessions == map[] || exists n :: n in s.sessions && s.sessions[n] == [] then None
      else
        AscendingHas(s.sessions.Keys);
        Collect(Ascending(s.sessions.Keys), s.sessions, files)
  }

  /** `parse_cue`: read the lines, refuse a sheet with an empty session, publish the sessions in order. */
  method ParseCue(lines: seq<Line>, files: map<string, Hashes>) returns (r: Option<seq<Session>>)
    ensures r == Parse(lines, files)
  {
    hide Finish, FinishAll, Least, Ascending, Collect, ReadAll;
    var state := ReadLines(lines);
    if state == None || state.value.sessions == map[]
       || exists n :: n in state.value.sessions && state.value.sessions[n] == [] {
      return None;
    }
    AscendingHas(state.value.sessions.Keys);
    r := Publish(Ascending(state.value.sessions.Keys), state.value.sessions, files);
  }

  /** The loop over the sessions in ascending order. */
  method Publish(numbers: seq<nat>, sessions: map<nat, seq<RawTrack>>, files: map<string, Hashes>)
    returns (r: Option<seq<Session>>)
    requires forall i :: 0 <= i < |numbers| ==> numbers[i] in sessions
    ensures r == Collect(numbers, sessions, files)
  {
    hide FinishAll;
    var done: seq<Session> := [];
    assert numbers[0..] == numbers;
    PrependNothing(Collect(numbers, sessions, files));
    for i := 0 to |numbers|
      invariant Collect(numbers, sessions, files) == Prepend(done, Collect(numbers[i..], sessions, files))
    {
      assert numbers[i..][1..] == numbers[i + 1..];
      var tracks := FinishTracks(sessions[numbers[i]], numbers[i], files);
      if tracks == None {
        return None;
      }
      PrependMore(done, Session(numbers[i], tracks.value), Collect(numbers[i + 1..], sessions, files));
      done := done + [Session(numbers[i], tracks.value)];
    }
    assert numbers[|numbers|..] == [] && done + [] == done;
    return Some(done);
  }

  method FinishTracks(ts: seq<RawTrack>, session: nat, files: map<string, Hashes>) returns (r: Option<seq<Track>>)
    ensures r == FinishAll(ts, session, files)
  {
    var done: seq<Track> := [];
    assert ts[0..] == ts;
    PrependNothing(FinishAll(ts, session, files));
    for i := 0 to |ts|
      invariant FinishAll(ts, session, files) == Prepend(done, FinishAll(ts[i..], session, files))
    {
      assert ts[i..][1..] == ts[i + 1..];
      var t := Finish(ts[i], session, files);
      if t == None {
        return None;
      }
      PrependMore(done, t.value, FinishAll(ts[i + 1..], session, files));
      done := done + [t.value];
    }
    assert ts[|ts|..] == [] && done + [] == done;
    return Some(done);
  }

  ghost function Prepend<T>(done: seq<T>, rest: Option<seq<T>>): Option<seq<T>> {
    match rest case None => None case Some(r) => Some(done + r)
  }

  lemma PrependNothing<T>(rest: Option<seq<T>>)
    ensures Prepend([], rest) == rest
  {
    if rest.Some? {
      assert [] + rest.value == rest.value;
    }
  }

  lemma PrependMore<T>(done: seq<T>, x: T, rest: Option<seq<T>>)
    ensures Prepend(done, Prepend([x], rest)) == Prepend(done + [x], rest)
  {
    if rest.Some? {
      assert done + ([x] + rest.value) == done + [x] + rest.value;
    }
  }

  // ---------------------------------------------------------------- what every accepted sheet gives

  ghost predicate RawIsSound(ts: seq<RawTrack>) {
    && (forall i :: 0 <= i < |ts| ==> 1 <= ts[i].number)
    && (forall i, j :: 0 <= i < j < |ts| ==> ts[i].number != ts[j].number)
  }

  ghost predicate Sound(s: State) {
    1 <= s.session && forall n :: n in s.sessions ==> 1 <= n && RawIsSound(s.sessions[n])
  }

  lemma ReadKeepsSound(s: State, line: Line)
    requires s.Valid() && Sound(s) && Read(s, line).Some?
    ensures Sound(Read(s, line).value)
  {
    hide Time, SectorSize, Upper, IsDigits, Number;
  }

  lemma {:induction false} ReadAllKeepsSound(s: State, lines: seq<Line>)
    requires s.Valid() && Sound(s) && ReadAll(s, lines).Some?
    ensures Sound(ReadAll(s, lines).value)
    decreases |lines|
  {
    hide Read, Sound;
    if lines != [] {
      ReadKeepsSound(s, lines[0]);
      ReadAllKeepsSound(Read(s, lines[0]).value, lines[1..]);
    }
  }

  /** Track numbers are distinct within a session; every track carries its session's number and its file's hashes,
      and starts at its INDEX 01. */
  ghost predicate SessionIsWellFormed(s: Session, files: map<string, Hashes>) {
    && 1 <= s.number && s.tracks != []
    && (forall i :: 0 <= i < |s.tracks| ==>
          && 1 <= s.tracks[i].number && s.tracks[i].session == s.number
          && "01" in s.tracks[i].indexes && s.tracks[i].startLba == s.tracks[i].indexes["01"]
          && s.tracks[i].hashes == HashesOf(files, s.tracks[i].file))
    && (forall i, j :: 0 <= i < j < |s.tracks| ==> s.tracks[i].number != s.tracks[j].number)
  }

  lemma {:induction false} FinishAllAt(ts: seq<RawTrack>, session: nat, files: map<string, Hashes>)
    ensures FinishAll(ts, session, files).Some? <==> forall i :: 0 <= i < |ts| ==> Finish(ts[i], session, files).Some?
    ensures FinishAll(ts, session, files).Some? ==>
      var r := FinishAll(ts, session, files).value;
      |r| == |ts| && forall i :: 0 <= i < |ts| ==> Finish(ts[i], session, files) == Some(r[i])
  {
    hide Finish;
    if ts != [] {
      FinishAllAt(ts[1..], session, files);
      assert forall i :: 0 < i < |ts| ==> ts[i] == ts[1..][i - 1];
      assert FinishAll(ts[1..], session, files).None? ==> exists i :: 0 < i < |ts| && Finish(ts[i], session, files).None?;
    }
  }

  lemma {:induction false} CollectIsWellFormed(numbers: seq<nat>, sessions: map<nat, seq<RawTrack>>, files: map<string, Hashes>)
    requires forall i :: 0 <= i < |numbers| ==>
      numbers[i] in sessions && 1 <= numbers[i] && sessions[numbers[i]] != [] && RawIsSound(sessions[numbers[i]])
    requires Collect(numbers, sessions, files).Some?
    ensures var r := Collect(numbers, sessions, files).value;
      |r| == |numbers| && forall i :: 0 <= i < |r| ==> r[i].number == numbers[i] && SessionIsWellFormed(r[i], files)
    decreases |numbers|
  {
    hide FinishAll;
    if numbers != [] {
      var ts := sessions[numbers[0]];
      FinishAllAt(ts, numbers[0], files);
      CollectIsWellFormed(numbers[1..], sessions, files);
      assert SessionIsWellFormed(Collect(numbers, sessions, files).value[0], files);
    }
  }

  lemma {:induction false} AscendingAscends(s: set<nat>)
    ensures forall i, j :: 0 <= i < j < |Ascending(s)| ==> Ascending(s)[i] < Ascending(s)[j]
  {
    if s != {} {
      var rest := Ascending(s - {Least(s)});
      AscendingAscends(s - {Least(s)});
      AscendingHas(s - {Least(s)});
      forall i, j | 0 <= i < j < |Ascending(s)|
        ensures Ascending(s)[i] < Ascending(s)[j]
      {
        assert rest[j - 1] in s && rest[j - 1] != Least(s);
      }
    }
  }

  /** Whatever the sheet, an accepted disc has at least one session, its sessions ascend, and each is well formed. */
  lemma ParsedIsWellFormed(lines: seq<Line>, files: map<string, Hashes>)
    requires Parse(lines, files).Some?
    ensures var disc := Parse(lines, files).value;
      && disc != []
      && (forall i :: 0 <= i < |disc| ==> SessionIsWellFormed(disc[i], files))
      && (forall i, j :: 0 <= i < j < |disc| ==> disc[i].number < disc[j].number)
  {
    hide Collect, Read, SessionIsWellFormed, RawIsSound;
    ReadAllKeepsSound(START, lines);
    var sessions := ReadAll(START, lines).value.sessions;
    AscendingHas(sessions.Keys);
    AscendingAscends(sessions.Keys);
    var n :| n in sessions;
    assert n in Ascending(sessions.Keys);
    var numbers := Ascending(sessions.Keys);
    forall i | 0 <= i < |numbers|
      ensures numbers[i] in sessions && 1 <= numbers[i] && sessions[numbers[i]] != [] && RawIsSound(sessions[numbers[i]])
    {
      assert numbers[i] in numbers;
    }
    CollectIsWellFormed(numbers, sessions, files);
  }

  // ---------------------------------------------------------------- printing

  type DecimalDigit = n: nat | n < 10

  /** A track of audio frames, or of data in sectors of a size. */
  datatype Mode = Audio | Data(kind: DecimalDigit, size: nat)
  {
    function Text(): string {
      match this
      case Audio => "AUDIO"
      case Data(kind, size) => "MODE" + [Digit(kind)] + "/" + Decimal(size)
    }

    function SectorSize(): nat { match this case Audio => 2352 case Data(_, size) => size }
  }

  datatype CueTrack = CueTrack(number: nat, mode: Mode, indexes: seq<(string, nat)>, pregap: Option<nat>,
                               postgap: Option<nat>, file: string)

  datatype CueSession = CueSession(number: nat, tracks: seq<CueTrack>)

  function TwoDigits(n: nat): string
    requires n < 100
  { [Digit(n / 10), Digit(n % 10)] }

  /** The canonical form of a frame address: seconds below 60. */
  function PrintTime(frames: nat): string {
    Decimal(frames / 4500) + ":" + TwoDigits(frames / 75 % 60) + ":" + TwoDigits(frames % 75)
  }

  function PrintIndexes(indexes: seq<(string, nat)>): seq<Line> {
    if indexes == [] then []
    else [Command(["INDEX", indexes[0].0, PrintTime(indexes[0].1)])] + PrintIndexes(indexes[1..])
  }

  function PrintTrack(t: CueTrack): seq<Line> {
    [Command(["FILE", t.file, "BINARY"]), Command(["TRACK", Decimal(t.number), t.mode.Text()])]
    + (match t.pregap case None => [] case Some(n) => [Command(["PREGAP", PrintTime(n)])])
    + PrintIndexes(t.indexes)
    + (match t.postgap case None => [] case Some(n) => [Command(["POSTGAP", PrintTime(n)])])
  }

  function PrintTracks(ts: seq<CueTrack>): seq<Line> {
    if ts == [] then [] else PrintTrack(ts[0]) + PrintTracks(ts[1..])
  }

  function Print(disc: seq<CueSession>): seq<Line> {
    if disc == [] then []
    else [RemSession(["REM", "SESSION", Decimal(disc[0].number)])] + PrintTracks(disc[0].tracks) + Print(disc[1..])
  }

  function IndexMap(indexes: seq<(string, nat)>): map<string, nat> {
    if indexes == [] then map[]
    else
      var last := indexes[|indexes| - 1];
      IndexMap(indexes[..|indexes| - 1])[last.0 := last.1]
  }

  /** The track a printed track must be read as. */
  function Raw(t: CueTrack): RawTrack {
    RawTrack(t.number, t.mode.Text(), t.mode.SectorSize(), IndexMap(t.indexes), t.pregap, t.postgap, Some(t.file))
  }

  predicate TrackIsSound(t: CueTrack) {
    1 <= t.number && forall i :: 0 <= i < |t.indexes| ==> IsDigits(t.indexes[i].0)
  }

  ghost predicate SessionIsSound(s: CueSession) {
    && 1 <= s.number && s.tracks != []
    && (forall i :: 0 <= i < |s.tracks| ==> TrackIsSound(s.tracks[i]))
    && (forall i, j :: 0 <= i < j < |s.tracks| ==> s.tracks[i].number != s.tracks[j].number)
  }

  /** A disc that can be printed: sessions in order, and track numbers not repeated within a session. */
  ghost predicate DiscIsSound(disc: seq<CueSession>) {
    && disc != []
    && (forall i :: 0 <= i < |disc| ==> SessionIsSound(disc[i]))
    && (forall i, j :: 0 <= i < j < |disc| ==> disc[i].number < disc[j].number)
  }

  function RawTracks(ts: seq<CueTrack>): seq<RawTrack> {
    if ts == [] then [] else [Raw(ts[0])] + RawTracks(ts[1..])
  }

  /** The sessions a printed disc must be published as. */
  function Published(disc: seq<CueSession>, files: map<string, Hashes>): Option<seq<Session>> {
    if disc == [] then Some([])
    else
      match (FinishAll(RawTracks(disc[0].tracks), disc[0].number, files), Published(disc[1..], files))
      case (Some(tracks), Some(rest)) => Some([Session(disc[0].number, tracks)] + rest)
      case _ => None
  }

  // ---------------------------------------------------------------- numbers and times are read back

  lemma {:induction false} NumberOfDecimal(n: nat)
    ensures Number(Decimal(n)) == n
  {
    if 10 <= n {
      var text := Decimal(n);
      assert text[..|text| - 1] == Decimal(n / 10) && text[|text| - 1] == Digit(n % 10);
      NumberOfDecimal(n / 10);
    } else {
      assert Decimal(n)[..0] == "";
    }
  }

  lemma NumberOfTwoDigits(n: nat)
    requires n < 100
    ensures IsDigits(TwoDigits(n)) && Number(TwoDigits(n)) == n
  {
    var text := TwoDigits(n);
    assert text[..1] == [Digit(n / 10)] && text[1] == Digit(n % 10);
    assert text[..1][..0] == "" && Number("") == 0;
    assert Number(text[..1]) == n / 10;
    assert Number(text) == 10 * Number(text[..|text| - 1]) + n % 10;
  }

  lemma TimeOf(minutes: string, seconds: string, frames: string)
    requires IsDigits(minutes) && IsDigits(seconds) && IsDigits(frames) && |seconds| == 2 && |frames| == 2
    ensures var s := minutes + ":" + seconds + ":" + frames;
      Time(s) == if 75 <= Number(frames) then None
                 else Some(Number(minutes) * 60 * 75 + Number(seconds) * 75 + Number(frames))
  {
    hide Number, IndexOf, IsDigits, Frames;
    TimeParts(minutes, seconds, frames);
    FramesOf(minutes, seconds, frames);
  }

  lemma FramesOf(minutes: string, seconds: string, frames: string)
    requires IsDigits(minutes) && IsDigits(seconds) && IsDigits(frames)
    ensures Frames(minutes, seconds, frames) == if 75 <= Number(frames) then None
                 else Some(Number(minutes) * 60 * 75 + Number(seconds) * 75 + Number(frames))
  {}

  lemma TimeParts(minutes: string, seconds: string, frames: string)
    requires IsDigits(minutes) && |seconds| == 2 && |frames| == 2
    ensures var s, m := minutes + ":" + seconds + ":" + frames, |minutes|;
      && IndexOf(s, ':') == m && |s| == m + 6
      && s[..m] == minutes && s[m + 1..m + 3] == seconds && s[m + 3] == ':' && s[m + 4..] == frames
  {
    hide IndexOf;
    var s, m := minutes + ":" + seconds + ":" + frames, |minutes|;
    assert s == minutes + (":" + seconds + ":" + frames);
    IndexAfter(minutes, ":" + seconds + ":" + frames, ':');
  }

  /** Every frame address survives printing and reading. */
  lemma TimeRoundTrip(frames: nat)
    ensures Time(PrintTime(frames)) == Some(frames)
  {
    var minutes, seconds, rest := frames / 4500, frames / 75 % 60, frames % 75;
    NumberOfDecimal(minutes);
    NumberOfTwoDigits(seconds);
    NumberOfTwoDigits(rest);
    TimeOf(Decimal(minutes), TwoDigits(seconds), TwoDigits(rest));
    SplitFrames(frames);
  }

  lemma SplitFrames(frames: nat)
    ensures frames / 4500 * 60 * 75 + frames / 75 % 60 * 75 + frames % 75 == frames
  {
    var s := frames / 75;
    assert s == 60 * (s / 60) + s % 60;
    assert frames == 75 * s + frames % 75;
    assert s / 60 == frames / 4500;
  }

  /** Seconds are not bounded, so different times can name the same frame; canonical ones cannot. */
  lemma TimesAreNotCanonical()
    ensures Time("00:60:00") == Time("01:00:00") == Some(4500)
  {
    hide Number, Time, IndexOf;
    assert TwoDigits(0) == "00" && TwoDigits(1) == "01" && TwoDigits(60) == "60";
    NumberOfTwoDigits(0);
    NumberOfTwoDigits(1);
    NumberOfTwoDigits(60);
    TimeOf("00", "60", "00");
    TimeOf("01", "00", "00");
    assert "00" + ":" + "60" + ":" + "00" == "00:60:00";
    assert "01" + ":" + "00" + ":" + "00" == "01:00:00";
  }

  // ---------------------------------------------------------------- print, then parse

  lemma {:induction false} ReadConcat(s: State, a: seq<Line>, b: seq<Line>)
    requires s.Valid()
    ensures ReadAll(s, a + b) == match ReadAll(s, a) case None => None case Some(t) => ReadAll(t, b)
    decreases |a|
  {
    if a == [] {
      assert a + b == b;
    } else {
      assert (a + b)[1..] == a[1..] + b && (a + b)[0] == a[0];
      if Read(s, a[0]).Some? {
        ReadConcat(Read(s, a[0]).value, a[1..], b);
      }
    }
  }

  lemma ReadOne(s: State, line: Line)
    requires s.Valid()
    ensures ReadAll(s, [line]) == Read(s, line)
  {
    assert [line][1..] == [];
  }

  lemma UpperCommands()
    ensures Upper("FILE") == "FILE" && Upper("TRACK") == "TRACK" && Upper("INDEX") == "INDEX"
    ensures Upper("PREGAP") == "PREGAP" && Upper("POSTGAP") == "POSTGAP"
  {}

  /** The state while the last track of session `n` is being read. */
  ghost predicate ReadingLast(s: State, n: nat, before: seq<RawTrack>, t: RawTrack) {
    n in s.sessions && s.session == n && s.sessions[n] == before + [t] && s.current == Some((n, |before|))
  }

  function WithLast(s: State, n: nat, before: seq<RawTrack>, t: RawTrack): State {
    s.(sessions := s.sessions[n := before + [t]])
  }

  lemma {:induction false} ReadIndexes(s: State, n: nat, before: seq<RawTrack>, t: RawTrack, indexes: seq<(string, nat)>, k: nat)
    requires ReadingLast(s, n, before, t) && k <= |indexes| && t.indexes == IndexMap(indexes[..k])
    requires forall i :: 0 <= i < |indexes| ==> IsDigits(indexes[i].0)
    ensures s.Valid()
    ensures ReadAll(s, PrintIndexes(indexes[k..])) == Some(WithLast(s, n, before, t.(indexes := IndexMap(indexes))))
    decreases |indexes| - k
  {
    hide IsDigits, PrintTime, Time, Upper, Read;
    if k == |indexes| {
      assert indexes[..k] == indexes && s.sessions == s.sessions[n := before + [t]];
    } else {
      var (key, frames) := indexes[k];
      var u := t.(indexes := IndexMap(indexes[..k + 1]));
      var next := WithLast(s, n, before, u);
      NextIndex(indexes, k);
      IndexIsRead(s, n, before, t, key, frames);
      MarkSets(s, n, before, t, u);
      var lines := PrintIndexes(indexes[k..]);
      assert indexes[k..][1..] == indexes[k + 1..] && indexes[k..][0] == indexes[k];
      assert lines[0] == Command(["INDEX", key, PrintTime(frames)]) && lines[1..] == PrintIndexes(indexes[k + 1..]);
      ReadIndexes(next, n, before, u, indexes, k + 1);
      var all := t.(indexes := IndexMap(indexes));
      assert WithLast(next, n, before, all) == WithLast(s, n, before, all);
    }
  }

  lemma NextIndex(indexes: seq<(string, nat)>, k: nat)
    requires k < |indexes|
    ensures IndexMap(indexes[..k + 1]) == IndexMap(indexes[..k])[indexes[k].0 := indexes[k].1]
  {
    assert indexes[..k + 1][..k] == indexes[..k];
  }

  lemma IndexIsRead(s: State, n: nat, before: seq<RawTrack>, t: RawTrack, key: string, frames: nat)
    requires ReadingLast(s, n, before, t) && IsDigits(key)
    ensures s.Valid()
    ensures Read(s, Command(["INDEX", key, PrintTime(frames)]))
            == Some(WithLast(s, n, before, t.(indexes := t.indexes[key := frames])))
  {
    hide IsDigits, PrintTime, Time, Upper;
    TimeRoundTrip(frames);
    UpperCommands();
    MarkSets(s, n, before, t, t.(indexes := t.indexes[key := frames]));
  }

  lemma MarkSets(s: State, n: nat, before: seq<RawTrack>, t: RawTrack, u: RawTrack)
    requires ReadingLast(s, n, before, t)
    ensures s.Valid() && SetCurrent(s, u) == WithLast(s, n, before, u)
    ensures ReadingLast(WithLast(s, n, before, u), n, before, u)
  {
    assert (before + [t])[|before| := u] == before + [u];
  }

  /** One printed track is read as itself, behind the tracks of its session read before. */
  lemma TrackIsRead(s: State, t: CueTrack, before: seq<RawTrack>)
    requires s.Valid() && s.session in s.sessions && s.sessions[s.session] == before && TrackIsSound(t)
    requires forall x :: x in before ==> x.number != t.number
    ensures ReadAll(s, PrintTrack(t))
            == Some(State(s.sessions[s.session := before + [Raw(t)]], s.session, Some(t.file), Some((s.session, |before|))))
  {
    hide Time, PrintTime, IndexMap, Mode.Text, Mode.SectorSize, Upper, Read, ReadAll, PrintIndexes, Decimal;
    var n := s.session;
    var head := [Command(["FILE", t.file, "BINARY"]), Command(["TRACK", Decimal(t.number), t.mode.Text()])];
    var pre := match t.pregap case None => [] case Some(g) => [Command(["PREGAP", PrintTime(g)])];
    var post := match t.postgap case None => [] case Some(g) => [Command(["POSTGAP", PrintTime(g)])];
    var r0 := RawTrack(t.number, t.mode.Text(), t.mode.SectorSize(), map[], None, None, Some(t.file));
    var s1 := State(s.sessions[n := before + [r0]], n, Some(t.file), Some((n, |before|)));
    HeadIsRead(s, t, before);
    var r1 := r0.(pregap := t.pregap);
    var s2 := WithLast(s1, n, before, r1);
    GapIsRead(s1, n, before, r0, r1, "PREGAP", t.pregap);
    NoIndexes(t.indexes);
    var r2 := r1.(indexes := IndexMap(t.indexes));
    var s3 := WithLast(s2, n, before, r2);
    MarkSets(s1, n, before, r0, r1);
    ReadIndexes(s2, n, before, r1, t.indexes, 0);
    assert t.indexes[0..] == t.indexes;
    MarkSets(s2, n, before, r1, r2);
    GapIsRead(s3, n, before, r2, r2.(postgap := t.postgap), "POSTGAP", t.postgap);
    ReadConcat(s, head, pre);
    ReadConcat(s, head + pre, PrintIndexes(t.indexes));
    ReadConcat(s, head + pre + PrintIndexes(t.indexes), post);
    assert WithLast(s3, n, before, Raw(t)).sessions == s.sessions[n := before + [Raw(t)]];
  }

  lemma NoIndexes(indexes: seq<(string, nat)>)
    ensures IndexMap(indexes[..0]) == map[]
  {}

  lemma ModeIsRead(mode: Mode)
    ensures Upper(mode.Text()) == mode.Text() && SectorSize(mode.Text()) == Some(mode.SectorSize())
  {
    hide Number, Upper;
    ModeIsUpper(mode);
    if mode.Data? {
      var text, size := mode.Text(), Decimal(mode.size);
      NumberOfDecimal(mode.size);
      assert text[..4] == "MODE" && text[4..5] == [Digit(mode.kind)] && text[5] == '/' && text[6..] == size;
    }
  }

  lemma ModeIsUpper(mode: Mode)
    ensures Upper(mode.Text()) == mode.Text()
  {
    var text := mode.Text();
    forall i | 0 <= i < |text|
      ensures !('a' <= text[i] <= 'z')
    {
      if mode.Data? && 6 <= i {
        assert text[i] == Decimal(mode.size)[i - 6];
      }
    }
    assert Upper(text) == text;
  }

  lemma HeadIsRead(s: State, t: CueTrack, before: seq<RawTrack>)
    requires s.Valid() && s.session in s.sessions && s.sessions[s.session] == before && TrackIsSound(t)
    requires forall x :: x in before ==> x.number != t.number
    ensures ReadAll(s, [Command(["FILE", t.file, "BINARY"]), Command(["TRACK", Decimal(t.number), t.mode.Text()])])
            == Some(State(s.sessions[s.session := before + [RawTrack(t.number, t.mode.Text(), t.mode.SectorSize(), map[], None,
                                                                     None, Some(t.file))]],
                          s.session, Some(t.file), Some((s.session, |before|))))
  {
    hide SectorSize, Mode.Text, Mode.SectorSize, Decimal, Upper;
    ModeIsRead(t.mode);
    UpperCommands();
    NumberOfDecimal(t.number);
    var file, track := Command(["FILE", t.file, "BINARY"]), Command(["TRACK", Decimal(t.number), t.mode.Text()]);
    var s0 := s.(file := Some(t.file));
    assert Read(s, file) == Some(s0);
    ReadOne(s, file);
    ReadOne(s0, track);
    ReadConcat(s, [file], [track]);
    assert [file] + [track] == [file, track];
  }

  lemma GapIsRead(s: State, n: nat, before: seq<RawTrack>, t: RawTrack, u: RawTrack, command: string, gap: Option<nat>)
    requires ReadingLast(s, n, before, t) && command in ["PREGAP", "POSTGAP"]
    requires u == if gap == None then t else if command == "PREGAP" then t.(pregap := gap) else t.(postgap := gap)
    ensures s.Valid()
    ensures ReadAll(s, match gap case None => [] case Some(g) => [Command([command, PrintTime(g)])])
            == Some(WithLast(s, n, before, u))
  {
    UpperCommands();
    MarkSets(s, n, before, t, u);
    if gap == None {
      assert s.sessions == s.sessions[n := before + [t]];
    } else {
      TimeRoundTrip(gap.value);
      ReadOne(s, Command([command, PrintTime(gap.value)]));
    }
  }

  ghost predicate TracksAreSound(ts: seq<CueTrack>) {
    && (forall i :: 0 <= i < |ts| ==> TrackIsSound(ts[i]))
    && (forall i, j :: 0 <= i < j < |ts| ==> ts[i].number != ts[j].number)
  }

  ghost predicate NumbersAreNew(ts: seq<CueTrack>, before: seq<RawTrack>) {
    forall x, i :: x in before && 0 <= i < |ts| ==> x.number != ts[i].number
  }

  /** The rest of the tracks behind the first one. */
  lemma RestIsNew(ts: seq<CueTrack>, before: seq<RawTrack>)
    requires ts != [] && TracksAreSound(ts) && NumbersAreNew(ts, before)
    ensures TrackIsSound(ts[0]) && TracksAreSound(ts[1..]) && NumbersAreNew(ts[1..], before + [Raw(ts[0])])
    ensures forall x :: x in before ==> x.number != ts[0].number
  {
    hide TrackIsSound;
    forall x, i | x in before + [Raw(ts[0])] && 0 <= i < |ts[1..]|
      ensures x.number != ts[1..][i].number
    {
      assert ts[1..][i] == ts[i + 1];
    }
  }

  lemma FirstAndRest(ts: seq<CueTrack>, before: seq<RawTrack>)
    requires ts != []
    ensures PrintTracks(ts) == PrintTrack(ts[0]) + PrintTracks(ts[1..])
    ensures before + RawTracks(ts) == before + [Raw(ts[0])] + RawTracks(ts[1..])
  {
    hide PrintTrack, Raw;
  }

  lemma {:induction false} TracksAreRead(s: State, ts: seq<CueTrack>, before: seq<RawTrack>)
    requires s.Valid() && s.session in s.sessions && s.sessions[s.session] == before
    requires TracksAreSound(ts) && NumbersAreNew(ts, before)
    ensures ReadAll(s, PrintTracks(ts)).Some?
    ensures var r := ReadAll(s, PrintTracks(ts)).value;
      r.session == s.session && r.sessions == s.sessions[s.session := before + RawTracks(ts)]
    decreases |ts|
  {
    hide TrackIsSound, PrintTrack, Raw, ReadAll, TracksAreSound, NumbersAreNew;
    if ts == [] {
      assert before + RawTracks(ts) == before;
      NothingIsRead(s);
    } else {
      hide PrintTracks, RawTracks;
      RestIsNew(ts, before);
      FirstAndRest(ts, before);
      TrackIsRead(s, ts[0], before);
      ReadConcat(s, PrintTrack(ts[0]), PrintTracks(ts[1..]));
      var next := ReadAll(s, PrintTrack(ts[0])).value;
      TracksAreRead(next, ts[1..], before + [Raw(ts[0])]);
    }
  }

  lemma NothingIsRead(s: State)
    requires s.Valid()
    ensures ReadAll(s, []) == Some(s)
  {}

  /** The sessions read so far are the first `k` of the disc. */
  ghost predicate ReadUpTo(s: State, disc: seq<CueSession>, k: nat)
    requires k <= |disc| && DiscIsSound(disc)
  {
    && (forall n :: n in s.sessions ==> exists i :: 0 <= i < k && disc[i].number == n)
    && (forall i :: 0 <= i < k ==> disc[i].number in s.sessions
                                   && s.sessions[disc[i].number] == RawTracks(disc[i].tracks))
  }

  lemma {:induction false} SessionsAreRead(s: State, disc: seq<CueSession>, k: nat)
    requires s.Valid() && DiscIsSound(disc) && k <= |disc| && ReadUpTo(s, disc, k)
    ensures ReadAll(s, Print(disc[k..])).Some? && ReadUpTo(ReadAll(s, Print(disc[k..])).value, disc, |disc|)
    decreases |disc| - k
  {
    hide Read, PrintTracks, RawTracks, Decimal, TrackIsSound;
    if k < |disc| {
      var n := disc[k].number;
      var remark, tracks := [RemSession(["REM", "SESSION", Decimal(n)])], PrintTracks(disc[k].tracks);
      assert disc[k..][1..] == disc[k + 1..] && disc[k..][0] == disc[k];
      SessionIsRead(s, disc, k);
      var s2 := ReadAll(s, remark + tracks).value;
      ReadConcat(s, remark + tracks, Print(disc[k + 1..]));
      SessionsAreRead(s2, disc, k + 1);
    }
  }

  /** One printed session is read behind the first `k`. */
  lemma SessionIsRead(s: State, disc: seq<CueSession>, k: nat)
    requires s.Valid() && DiscIsSound(disc) && k < |disc| && ReadUpTo(s, disc, k)
    ensures var lines := [RemSession(["REM", "SESSION", Decimal(disc[k].number)])] + PrintTracks(disc[k].tracks);
      ReadAll(s, lines).Some? && ReadUpTo(ReadAll(s, lines).value, disc, k + 1)
  {
    hide Read, ReadAll, PrintTracks, RawTracks, Decimal, TrackIsSound, ReadUpTo, DiscIsSound;
    var n := disc[k].number;
    NotYetRead(s, disc, k);
    SessionRemarkIsRead(s, n);
    var s1 := s.(session := n, sessions := s.sessions[n := []]);
    TracksAreRead(s1, disc[k].tracks, []);
    ReadConcat(s, [RemSession(["REM", "SESSION", Decimal(n)])], PrintTracks(disc[k].tracks));
    var s2 := ReadAll(s1, PrintTracks(disc[k].tracks)).value;
    assert [] + RawTracks(disc[k].tracks) == RawTracks(disc[k].tracks);
    assert s2.sessions == s.sessions[n := RawTracks(disc[k].tracks)];
    OneMoreSession(s, s2, disc, k);
  }

  lemma NotYetRead(s: State, disc: seq<CueSession>, k: nat)
    requires DiscIsSound(disc) && k < |disc| && ReadUpTo(s, disc, k)
    ensures SessionIsSound(disc[k]) && disc[k].number !in s.sessions
  {
    hide RawTracks, SessionIsSound;
  }

  lemma OneMoreSession(s: State, t: State, disc: seq<CueSession>, k: nat)
    requires DiscIsSound(disc) && k < |disc| && ReadUpTo(s, disc, k)
    requires t.sessions == s.sessions[disc[k].number := RawTracks(disc[k].tracks)]
    ensures ReadUpTo(t, disc, k + 1)
  {
    hide RawTracks, SessionIsSound;
    forall n | n in t.sessions
      ensures exists i :: 0 <= i < k + 1 && disc[i].number == n
    {
      if n != disc[k].number {
        var i :| 0 <= i < k && disc[i].number == n;
      }
    }
  }

  lemma SessionRemarkIsRead(s: State, n: nat)
    requires s.Valid() && n !in s.sessions && 1 <= n
    ensures ReadAll(s, [RemSession(["REM", "SESSION", Decimal(n)])]) == Some(s.(session := n, sessions := s.sessions[n := []]))
  {
    NumberOfDecimal(n);
    ReadOne(s, RemSession(["REM", "SESSION", Decimal(n)]));
  }

  /** Sorting numbers that already ascend changes nothing. */
  lemma {:induction false} AscendingIsSorted(numbers: seq<nat>, s: set<nat>)
    requires forall i, j :: 0 <= i < j < |numbers| ==> numbers[i] < numbers[j]
    requires forall n :: n in s <==> n in numbers
    ensures Ascending(s) == numbers
    decreases |numbers|
  {
    if numbers == [] {
      assert s == {};
    } else {
      assert numbers[0] in s;
      assert Least(s) == numbers[0];
      forall n
        ensures n in s - {numbers[0]} <==> n in numbers[1..]
      {
        assert n in numbers <==> n == numbers[0] || n in numbers[1..];
      }
      AscendingIsSorted(numbers[1..], s - {numbers[0]});
    }
  }

  function Numbers(disc: seq<CueSession>): seq<nat> { seq(|disc|, i requires 0 <= i < |disc| => disc[i].number) }

  lemma {:induction false} CollectIsPublished(sessions: map<nat, seq<RawTrack>>, disc: seq<CueSession>, files: map<string, Hashes>)
    requires forall i :: 0 <= i < |disc| ==> disc[i].number in sessions
                                             && sessions[disc[i].number] == RawTracks(disc[i].tracks)
    ensures Collect(Numbers(disc), sessions, files) == Published(disc, files)
    decreases |disc|
  {
    hide RawTracks, FinishAll;
    if disc != [] {
      assert Numbers(disc)[1..] == Numbers(disc[1..]);
      CollectIsPublished(sessions, disc[1..], files);
    }
  }

  /** Printing a disc and parsing the sheet gives the disc back: the same sessions and tracks in the same order,
      with the same frame addresses. */
  lemma PrintThenParse(disc: seq<CueSession>, files: map<string, Hashes>)
    requires DiscIsSound(disc)
    ensures Parse(Print(disc), files) == Published(disc, files)
  {
    assert disc != [] && disc[0..] == disc && ReadUpTo(START, disc, 0);
    hide ReadAll, Print, DiscIsSound, RawTracks, Collect, Ascending, Published, ReadUpTo;
    SessionsAreRead(START, disc, 0);
    var s := ReadAll(START, Print(disc)).value;
    SessionsOfDisc(s, disc);
    AscendingIsSorted(Numbers(disc), s.sessions.Keys);
    CollectIsPublished(s.sessions, disc, files);
  }

  /** The sessions after reading a whole disc. */
  lemma SessionsOfDisc(s: State, disc: seq<CueSession>)
    requires DiscIsSound(disc) && ReadUpTo(s, disc, |disc|)
    ensures s.sessions != map[] && forall n :: n in s.sessions ==> s.sessions[n] != []
    ensures forall n :: n in s.sessions.Keys <==> n in Numbers(disc)
    ensures forall i, j :: 0 <= i < j < |disc| ==> Numbers(disc)[i] < Numbers(disc)[j]
    ensures forall i :: 0 <= i < |disc| ==>
      disc[i].number in s.sessions && s.sessions[disc[i].number] == RawTracks(disc[i].tracks)
  {
    hide TrackIsSound;
    assert disc[0].number in s.sessions;
    forall n | n in s.sessions
      ensures s.sessions[n] != [] && n in Numbers(disc)
    {
      var i :| 0 <= i < |disc| && disc[i].number == n;
      assert SessionIsSound(disc[i]) && Numbers(disc)[i] == n;
      assert RawTracks(disc[i].tracks) != [];
    }
  }

  // ---------------------------------------------------------------- sheets that are not canonical

  /** The token is this word of capital letters, in any case. */
  predicate Says(token: string, word: string) {
    |token| == |word|
    && forall i :: 0 <= i < |word| ==>
         token[i] == word[i] || ('A' <= word[i] <= 'Z' && token[i] as int == word[i] as int + 32)
  }

  /** The token is this numeral, perhaps with zeros in front. */
  predicate SameNumber(token: string, numeral: string) {
    |numeral| <= |token| && token[|token| - |numeral|..] == numeral
    && forall i :: 0 <= i < |token| - |numeral| ==> token[i] == '0'
  }

  /** Lines that the parser passes over: blank ones, remarks, and commands it does not know. */
  predicate IsNoise(line: Line) {
    match line
    case Blank => true
    case Rem => true
    case RemSession(_) => false
    case Command(parts) =>
      parts != [] && !Says(parts[0], "FILE") && !Says(parts[0], "TRACK") && !Says(parts[0], "INDEX")
      && !Says(parts[0], "PREGAP") && !Says(parts[0], "POSTGAP")
  }

  /** A line says what a printed line says: commands and modes in any case, numbers with leading zeros, and anything
      behind the name of a file. */
  ghost predicate SameLine(line: Line, printed: Line) {
    match (line, printed)
    case (RemSession(a), RemSession(b)) => |a| == |b| == 3 && SameNumber(a[2], b[2])
    case (Command(a), Command(b)) =>
      2 <= |a| && 2 <= |b| && Says(a[0], b[0])
      && if b[0] == "FILE" then a[1] == b[1]
         else if b[0] == "TRACK" then |a| == |b| == 3 && SameNumber(a[1], b[1]) && Says(a[2], b[2])
         else a[1..] == b[1..]
    case _ => false
  }

  ghost predicate Shows(lines: seq<Line>, printed: seq<Line>)
    decreases |lines|
  {
    if lines == [] then printed == []
    else if IsNoise(lines[0]) then Shows(lines[1..], printed)
    else printed != [] && SameLine(lines[0], printed[0]) && Shows(lines[1..], printed[1..])
  }

  /** Numbers and words are in the form in which they are printed. */
  ghost predicate IsPrinted(line: Line) {
    match line
    case RemSession(b) => |b| == 3 && IsDigits(b[2])
    case Command(b) =>
      && 2 <= |b| && b[0] in ["FILE", "TRACK", "INDEX", "PREGAP", "POSTGAP"]
      && (b[0] == "TRACK" ==> |b| == 3 && IsDigits(b[1]) && Upper(b[2]) == b[2])
    case _ => false
  }

  lemma SaysUpper(token: string, word: string)
    requires Upper(word) == word
    ensures Says(token, word) ==> Upper(token) == word
  {
    if Says(token, word) {
      forall i | 0 <= i < |word|
        ensures Upper(token)[i] == word[i]
      {
        assert Upper(word)[i] == word[i];
      }
      assert Upper(token) == word;
    }
  }

  lemma UpperSays(token: string, word: string)
    ensures Upper(token) == word ==> Says(token, word)
  {
    if Upper(token) == word {
      forall i | 0 <= i < |word|
        ensures token[i] == word[i] || ('A' <= word[i] <= 'Z' && token[i] as int == word[i] as int + 32)
      {
        assert Upper(token)[i] == word[i];
      }
    }
  }

  lemma {:induction false} ZerosDoNotCount(token: string, numeral: string)
    requires IsDigits(numeral) && SameNumber(token, numeral)
    ensures IsDigits(token) && Number(token) == Number(numeral)
  {
    var zeros := token[..|token| - |numeral|];
    assert token == zeros + numeral;
    ZerosInFront(zeros, numeral);
  }

  lemma {:induction false} ZerosInFront(zeros: string, digits: string)
    requires (forall i :: 0 <= i < |zeros| ==> zeros[i] == '0') && forall i :: 0 <= i < |digits| ==> '0' <= digits[i] <= '9'
    ensures Number(zeros + digits) == Number(digits)
    decreases |zeros| + |digits|
  {
    var all := zeros + digits;
    if digits != [] {
      assert all[..|all| - 1] == zeros + digits[..|digits| - 1];
      ZerosInFront(zeros, digits[..|digits| - 1]);
    } else if zeros != [] {
      assert all[..|all| - 1] == zeros[..|zeros| - 1] + digits;
      ZerosInFront(zeros[..|zeros| - 1], digits);
    }
  }

  lemma NoiseIsIgnored(s: State, line: Line)
    requires s.Valid() && IsNoise(line)
    ensures Read(s, line) == Some(s)
  {
    hide Upper, Says;
    if line.Command? {
      UpperSays(line.parts[0], "FILE");
      UpperSays(line.parts[0], "TRACK");
      UpperSays(line.parts[0], "INDEX");
      UpperSays(line.parts[0], "PREGAP");
      UpperSays(line.parts[0], "POSTGAP");
    }
  }

  lemma SameLineSameRead(s: State, line: Line, printed: Line)
    requires s.Valid() && IsPrinted(printed) && SameLine(line, printed)
    ensures Read(s, line) == Read(s, printed)
  {
    hide Upper, Time, SectorSize, Number, Says, SameNumber, IsDigits;
    match (line, printed)
    case (RemSession(a), RemSession(b)) => ZerosDoNotCount(a[2], b[2]);
    case (Command(a), Command(b)) =>
      UpperCommands();
      SaysUpper(a[0], b[0]);
      if b[0] == "TRACK" {
        ZerosDoNotCount(a[1], b[1]);
        SaysUpper(a[2], b[2]);
      } else if b[0] != "FILE" {
        assert |a| == |b| && a[1] == a[1..][0] == b[1];
        assert 3 <= |a| ==> a[2] == a[1..][1] == b[2];
      }
  }

  lemma {:induction false} ShowsIsRead(s: State, lines: seq<Line>, printed: seq<Line>)
    requires s.Valid() && Shows(lines, printed) && forall i :: 0 <= i < |printed| ==> IsPrinted(printed[i])
    ensures ReadAll(s, lines) == ReadAll(s, printed)
    decreases |lines|
  {
    hide Read, IsPrinted, SameLine, IsNoise;
    if lines != [] {
      if IsNoise(lines[0]) {
        NoiseIsIgnored(s, lines[0]);
        ShowsIsRead(s, lines[1..], printed);
      } else {
        SameLineSameRead(s, lines[0], printed[0]);
        if Read(s, printed[0]).Some? {
          ShowsIsRead(Read(s, printed[0]).value, lines[1..], printed[1..]);
        }
      }
    }
  }

  ghost predicate AllPrinted(lines: seq<Line>) { forall i :: 0 <= i < |lines| ==> IsPrinted(lines[i]) }

  lemma AllPrintedConcat(a: seq<Line>, b: seq<Line>)
    requires AllPrinted(a) && AllPrinted(b)
    ensures AllPrinted(a + b)
  {
    hide IsPrinted;
  }

  lemma {:induction false} IndexesArePrinted(indexes: seq<(string, nat)>)
    ensures AllPrinted(PrintIndexes(indexes))
  {
    hide PrintTime;
    if indexes != [] {
      IndexesArePrinted(indexes[1..]);
    }
  }

  lemma TrackIsPrinted(t: CueTrack)
    ensures AllPrinted(PrintTrack(t))
  {
    hide PrintTime, PrintIndexes, Upper, Mode.Text, Decimal;
    IndexesArePrinted(t.indexes);
    ModeIsUpper(t.mode);
  }

  lemma {:induction false} TracksArePrinted(ts: seq<CueTrack>)
    ensures AllPrinted(PrintTracks(ts))
  {
    hide PrintTrack, IsPrinted;
    if ts != [] {
      TrackIsPrinted(ts[0]);
      TracksArePrinted(ts[1..]);
      AllPrintedConcat(PrintTrack(ts[0]), PrintTracks(ts[1..]));
    }
  }

  lemma {:induction false} SheetIsPrinted(disc: seq<CueSession>)
    ensures AllPrinted(Print(disc))
  {
    hide PrintTracks, Decimal;
    if disc != [] {
      TracksArePrinted(disc[0].tracks);
      SheetIsPrinted(disc[1..]);
      AllPrintedConcat([RemSession(["REM", "SESSION", Decimal(disc[0].number)])], PrintTracks(disc[0].tracks));
      AllPrintedConcat([RemSession(["REM", "SESSION", Decimal(disc[0].number)])] + PrintTracks(disc[0].tracks), Print(disc[1..]));
    }
  }

  /** Any sheet that says what the printed one says gives the same disc: blank lines, remarks and unknown commands
      anywhere, commands and modes in any case, zeros in front of the numbers, anything behind the name of a file. */
  lemma ShownThenParsed(lines: seq<Line>, disc: seq<CueSession>, files: map<string, Hashes>)
    requires DiscIsSound(disc) && Shows(lines, Print(disc))
    ensures Parse(lines, files) == Published(disc, files)
  {
    hide ReadAll, Print, DiscIsSound, Published, Shows, Collect, Ascending, IsPrinted;
    SheetIsPrinted(disc);
    ShowsIsRead(START, lines, Print(disc));
    PrintThenParse(disc, files);
  }

  ghost predicate Publishable(t: CueTrack, files: map<string, Hashes>) {
    && "01" in IndexMap(t.indexes)
    && (t.mode.SectorSize() == 0 && t.file in files ==> files[t.file].size == 0)
  }

  lemma {:induction false} RawTracksAt(ts: seq<CueTrack>)
    ensures |RawTracks(ts)| == |ts| && forall i :: 0 <= i < |ts| ==> RawTracks(ts)[i] == Raw(ts[i])
  {
    hide Raw;
    if ts != [] {
      RawTracksAt(ts[1..]);
    }
  }

  ghost predicate TrackIsPublished(t: CueTrack, session: nat, files: map<string, Hashes>, r: Track) {
    && r.number == t.number && r.session == session && r.mode == t.mode.Text() && r.sectorSize == t.mode.SectorSize()
    && r.indexes == IndexMap(t.indexes) && "01" in r.indexes && r.startLba == r.indexes["01"]
    && r.pregap == t.pregap && r.postgap == t.postgap && r.file == t.file
    && r.hashes == (if t.file in files then Some(files[t.file]) else None)
    && (r.sectorCount.Some? <==>
          r.hashes.Some? && r.hashes.value.size != 0 && r.sectorSize != 0 && r.hashes.value.size % r.sectorSize == 0)
    && (r.sectorCount.Some? ==> r.sectorCount.value * r.sectorSize == r.hashes.value.size)
  }

  lemma TrackIsPublishedIff(t: CueTrack, session: nat, files: map<string, Hashes>)
    requires TrackIsSound(t)
    ensures Finish(Raw(t), session, files).Some? <==> Publishable(t, files)
    ensures Publishable(t, files) ==> TrackIsPublished(t, session, files, Finish(Raw(t), session, files).value)
  {
    hide IndexMap, SectorSize, Upper;
  }

  /** A sheet printed from a sound disc is accepted iff each track has an INDEX 01 and no track divides by a zero sector
      size; then session by session and track by track the disc read is the disc printed. */
  lemma {:induction false} PublishedIff(disc: seq<CueSession>, files: map<string, Hashes>)
    requires forall i :: 0 <= i < |disc| ==> SessionIsSound(disc[i])
    ensures Published(disc, files).Some? <==>
      forall i, k :: 0 <= i < |disc| && 0 <= k < |disc[i].tracks| ==> Publishable(disc[i].tracks[k], files)
    ensures Published(disc, files).Some? ==>
      var r := Published(disc, files).value;
      && |r| == |disc|
      && (forall i :: 0 <= i < |r| ==> r[i].number == disc[i].number && |r[i].tracks| == |disc[i].tracks|)
      && (forall i, k :: 0 <= i < |r| && 0 <= k < |r[i].tracks| ==>
            TrackIsPublished(disc[i].tracks[k], disc[i].number, files, r[i].tracks[k]))
    decreases |disc|
  {
    hide FinishAll, RawTracks, Publishable, TrackIsPublished, TrackIsSound;
    if disc != [] {
      assert SessionIsSound(disc[0]);
      SessionIsPublishedIff(disc[0], files);
      PublishedIff(disc[1..], files);
      assert forall i :: 0 < i < |disc| ==> disc[i] == disc[1..][i - 1];
    }
  }

  lemma SessionIsPublishedIff(s: CueSession, files: map<string, Hashes>)
    requires SessionIsSound(s)
    ensures FinishAll(RawTracks(s.tracks), s.number, files).Some? <==>
      forall k :: 0 <= k < |s.tracks| ==> Publishable(s.tracks[k], files)
    ensures FinishAll(RawTracks(s.tracks), s.number, files).Some? ==>
      var r := FinishAll(RawTracks(s.tracks), s.number, files).value;
      |r| == |s.tracks| && forall k :: 0 <= k < |s.tracks| ==> TrackIsPublished(s.tracks[k], s.number, files, r[k])
  {
    hide FinishAll, RawTracks, Publishable, TrackIsPublished, TrackIsSound, Finish, Raw;
    RawTracksAt(s.tracks);
    FinishAllAt(RawTracks(s.tracks), s.number, files);
    forall k | 0 <= k < |s.tracks|
      ensures Finish(RawTracks(s.tracks)[k], s.number, files).Some? <==> Publishable(s.tracks[k], files)
      ensures Publishable(s.tracks[k], files) ==>
        TrackIsPublished(s.tracks[k], s.number, files, Finish(RawTracks(s.tracks)[k], s.number, files).value)
    {
      TrackIsPublishedIff(s.tracks[k], s.number, files);
    }
  }
}
