/** The optical disc authority (src/rab/redump.py, `_insert_discs`, `compare`, `_tracks_match`). */
module Redump {
  import opened Common
  import opened Cue

  /** What a disc identifier is a digest of; the digest is taken to be injective. */
  datatype DiscId = DiscId(dataset: string, index: nat, title: string)

  /** A row of `redump_tracks` but for its primary key, the disc and the track number. */
  datatype Row = Row(session: nat, audio: bool, mode: string, sectorSize: nat, sectorCount: Option<int>,
                     startLba: nat, sha1: Option<string>, md5: Option<string>, crc32: Option<string>)

  /** One tuple of `_layout_signature`. */
  datatype Layout = Layout(session: nat, number: nat, audio: bool, mode: string, sectorSize: nat, sectorCount: Option<int>,
                           startLba: nat, pregap: Option<nat>, postgap: Option<nat>)

  /** A row of `redump_signatures`. */
  datatype Signature = Signature(count: nat, layout: seq<Layout>)

  datatype Tables = Tables(discs: map<DiscId, string>, tracks: map<DiscId, map<nat, Row>>, signatures: map<DiscId, Signature>)

  /** One game of the data file: its title, its files, and the lines of its CUE sheet when it has one. */
  datatype Game = Game(title: string, files: map<string, Hashes>, cue: Option<seq<Line>>)

  function LayoutOf(t: Track): Layout {
    Layout(t.session, t.number, t.Audio(), t.mode, t.sectorSize, t.sectorCount, t.startLba, t.pregap, t.postgap)
  }

  function SignatureOf(ts: seq<Track>): Signature { Signature(|ts|, seq(|ts|, i requires 0 <= i < |ts| => LayoutOf(ts[i]))) }

  function RowOf(t: Track, files: map<string, Hashes>): Row {
    var h := match HashesOf(files, t.file) case Some(r) => r case None => Hashes(0, None, None, None);
    Row(t.session, t.Audio(), t.mode, t.sectorSize, t.sectorCount, t.startLba, h.sha1, h.md5, h.crc32)
  }

  function RowsAt(tracks: map<DiscId, map<nat, Row>>, id: DiscId): map<nat, Row> { if id in tracks then tracks[id] else map[] }

  /** INSERT OR REPLACE of one row for each track: a later track of the same number replaces the earlier one. */
  function Stored(rows: map<nat, Row>, ts: seq<Track>, files: map<string, Hashes>): map<nat, Row> {
    if ts == [] then rows
    else
      var last := ts[|ts| - 1];
      Stored(rows, ts[..|ts| - 1], files)[last.number := RowOf(last, files)]
  }

  /** SELECT ... ORDER BY track_number. */
  function Selected(rows: map<nat, Row>): seq<(nat, Row)> {
    AscendingHas(rows.Keys);
    var numbers := Ascending(rows.Keys);
    assert forall i :: 0 <= i < |numbers| ==> numbers[i] in numbers;
    seq(|numbers|, i requires 0 <= i < |numbers| => (numbers[i], rows[numbers[i]]))
  }

  function Truthy(h: Option<string>): bool { h.Some? && h.value != "" }

  function HashMatches(actual: Option<Hashes>, row: Row): bool {
    (Truthy(row.sha1) || Truthy(row.md5) || Truthy(row.crc32)) ==>
      actual.Some? && ((Truthy(row.sha1) && actual.value.sha1 == row.sha1) || (Truthy(row.md5) && actual.value.md5 == row.md5)
                       || (Truthy(row.crc32) && actual.value.crc32 == row.crc32))
  }

  predicate TrackMatches(t: Track, number: nat, row: Row) {
    && t.number == number && t.session == row.session && t.Audio() == row.audio && t.mode == row.mode
    && t.sectorSize == row.sectorSize && t.startLba == row.startLba && t.sectorCount == row.sectorCount
    && HashMatches(t.hashes, row)
  }

  /** `_tracks_match`. */
  predicate TracksMatch(observed: seq<Track>, rows: seq<(nat, Row)>) {
    |observed| == |rows| && forall i :: 0 <= i < |rows| ==> TrackMatches(observed[i], rows[i].0, rows[i].1)
  }

  // ---------------------------------------------------------------- importing a dataset

  function Inserted(t: Tables, id: DiscId, disc: seq<Session>, files: map<string, Hashes>): Tables {
    var ts := AllTracks(disc);
    Tables(t.discs[id := id.dataset],
           if ts == [] then t.tracks else t.tracks[id := Stored(RowsAt(t.tracks, id), ts, files)],
           t.signatures[id := SignatureOf(ts)])
  }

  function DiscOf(g: Game): Option<seq<Session>> { match g.cue case None => Some([]) case Some(lines) => Parse(lines, g.files) }

  /** The whole import from game `k` on; a sheet that does not parse stops it. */
  function Imported(t: Tables, dataset: string, games: seq<Game>, k: nat): Option<Tables>
    requires k <= |games|
    decreases |games| - k
  {
    if k == |games| then Some(t)
    else
      match DiscOf(games[k])
      case None => None
      case Some(disc) => Imported(Inserted(t, DiscId(dataset, k, games[k].title), disc, games[k].files), dataset, games, k + 1)
  }

  // ---------------------------------------------------------------- comparing

  datatype Verdict = ExactMatch(id: DiscId) | Ambiguous | Conflict | NoMatch | NotApplicable

  predicate InDataset(t: Tables, id: DiscId, dataset: Option<string>) {
    id in t.discs && (dataset == None || t.discs[id] == dataset.value)
  }

  function SameCount(t: Tables, observed: seq<Track>, dataset: Option<string>): set<DiscId> {
    set id | id in t.signatures && InDataset(t, id, dataset) && t.signatures[id].count == |observed|
  }

  function Candidates(t: Tables, observed: seq<Track>, dataset: Option<string>): set<DiscId> {
    set id | id in t.signatures && InDataset(t, id, dataset) && t.signatures[id] == SignatureOf(observed)
  }

  function Matching(t: Tables, observed: seq<Track>, dataset: Option<string>): set<DiscId> {
    set id | id in Candidates(t, observed, dataset) && TracksMatch(observed, Selected(RowsAt(t.tracks, id)))
  }

  /** One match, several, none although a disc of as many tracks is known, or no such disc; nothing else is answered. */
  ghost predicate IsVerdict(v: Verdict, t: Tables, observed: seq<Track>, dataset: Option<string>) {
    && (forall id :: v == ExactMatch(id) <==> Matching(t, observed, dataset) == {id})
    && (v == Ambiguous <==> 2 <= |Matching(t, observed, dataset)|)
    && (v == Conflict <==> Matching(t, observed, dataset) == {} && SameCount(t, observed, dataset) != {})
    && (v == NotApplicable <==> SameCount(t, observed, dataset) == {})
    && v != NoMatch
  }

  // ---------------------------------------------------------------- what a verdict means

  datatype HashKind = Sha1 | Md5 | Crc32

  function OfRow(row: Row, k: HashKind): Option<string> {
    match k case Sha1 => row.sha1 case Md5 => row.md5 case Crc32 => row.crc32
  }

  function OfFile(h: Hashes, k: HashKind): Option<string> {
    match k case Sha1 => h.sha1 case Md5 => h.md5 case Crc32 => h.crc32
  }

  /** The row has a hash of this kind; the database may hold empty ones. */
  predicate Has(row: Row, k: HashKind) { OfRow(row, k).Some? && OfRow(row, k) != Some("") }

  /** The file of the track has a hash of the row. */
  ghost predicate Shares(t: Track, row: Row) {
    t.hashes.Some? && exists k :: Has(row, k) && OfFile(t.hashes.value, k) == OfRow(row, k)
  }

  /** A track is what the row says, down to a common hash if the row has any. */
  ghost predicate AgreesWith(t: Track, row: Row) {
    && t.session == row.session && (t.mode == "AUDIO" <==> row.audio) && t.mode == row.mode
    && t.sectorSize == row.sectorSize && t.sectorCount == row.sectorCount && t.startLba == row.startLba
    && ((exists k :: Has(row, k)) ==> Shares(t, row))
  }

  ghost predicate Increasing(ts: seq<Track>) {
    forall i, j :: 0 <= i < j < |ts| ==> ts[i].number < ts[j].number
  }

  function NumbersIn(ts: seq<Track>): seq<nat> { seq(|ts|, i requires 0 <= i < |ts| => ts[i].number) }

  /** The rows of a disc are those of the tracks observed, which stand in the order of their numbers. */
  ghost predicate RowsFit(rows: map<nat, Row>, observed: seq<Track>) {
    && Increasing(observed) && (forall n :: n in rows <==> n in NumbersIn(observed))
    && forall i :: 0 <= i < |observed| ==> observed[i].number in rows && AgreesWith(observed[i], rows[observed[i].number])
  }

  /** The recorded signature is the layout of the tracks observed, field by field. */
  ghost predicate LayoutFits(s: Signature, observed: seq<Track>) {
    && s.count == |observed| && |s.layout| == |observed|
    && forall i :: 0 <= i < |observed| ==>
         && s.layout[i].session == observed[i].session && s.layout[i].number == observed[i].number
         && (s.layout[i].audio <==> observed[i].mode == "AUDIO") && s.layout[i].mode == observed[i].mode
         && s.layout[i].sectorSize == observed[i].sectorSize && s.layout[i].sectorCount == observed[i].sectorCount
         && s.layout[i].startLba == observed[i].startLba && s.layout[i].pregap == observed[i].pregap
         && s.layout[i].postgap == observed[i].postgap
  }

  /** The disc is known in the dataset asked for, with as many tracks. */
  ghost predicate Comparable(t: Tables, observed: seq<Track>, dataset: Option<string>, id: DiscId) {
    && id in t.signatures && t.signatures[id].count == |observed|
    && id in t.discs && (dataset.Some? ==> t.discs[id] == dataset.value)
  }

  ghost predicate Fits(t: Tables, observed: seq<Track>, dataset: Option<string>, id: DiscId) {
    && Comparable(t, observed, dataset, id) && LayoutFits(t.signatures[id], observed)
    && RowsFit(if id in t.tracks then t.tracks[id] else map[], observed)
  }

  /** EXACT_MATCH: this disc fits and no other does. AMBIGUOUS: two fit. CONFLICT: none fits, but one can be compared.
      NOT_APPLICABLE: none can. */
  ghost predicate Judges(v: Verdict, t: Tables, observed: seq<Track>, dataset: Option<string>) {
    && (forall id :: v == ExactMatch(id) <==>
          Fits(t, observed, dataset, id) && forall other :: Fits(t, observed, dataset, other) ==> other == id)
    && (v == Ambiguous <==> exists a, b :: a != b && Fits(t, observed, dataset, a) && Fits(t, observed, dataset, b))
    && (v == Conflict <==>
          (forall id :: !Fits(t, observed, dataset, id)) && exists id :: Comparable(t, observed, dataset, id))
    && (v == NotApplicable <==> forall id :: !Comparable(t, observed, dataset, id))
    && v != NoMatch
  }

  class RedumpAuthority {
    var discs: map<DiscId, string>
    var tracks: map<DiscId, map<nat, Row>>
    var signatures: map<DiscId, Signature>

    function State(): Tables
      reads this
    { Tables(discs, tracks, signatures) }

    constructor ()
      ensures State() == Tables(map[], map[], map[])
    {
      discs, tracks, signatures := map[], map[], map[];
    }

    /** The body of the loop of `_insert_discs`, once the sheet is parsed. */
    method InsertDisc(id: DiscId, disc: seq<Session>, files: map<string, Hashes>)
      modifies this
      ensures State() == Inserted(old(State()), id, disc, files)
    {
      hide Stored, SignatureOf, RowOf;
      discs := discs[id := id.dataset];
      var ts := AllTracks(disc);
      for i := 0 to |ts|
        invariant discs == old(discs)[id := id.dataset] && signatures == old(signatures)
        invariant i == 0 ==> tracks == old(tracks)
        invariant i != 0 ==> tracks == old(tracks)[id := Stored(RowsAt(old(tracks), id), ts[..i], files)]
      {
        StoredMore(RowsAt(old(tracks), id), ts, i, files);
        tracks := tracks[id := RowsAt(tracks, id)[ts[i].number := RowOf(ts[i], files)]];
      }
      assert ts[..|ts|] == ts;
      signatures := signatures[id := SignatureOf(ts)];
    }

    /** `_insert_discs` in its transaction: either every disc is stored or nothing changes. */
    method ImportDiscs(dataset: string, games: seq<Game>) returns (ok: bool)
      modifies this
      ensures ok == Imported(old(State()), dataset, games, 0).Some?
      ensures State() == if ok then Imported(old(State()), dataset, games, 0).value else old(State())
    {
      hide Inserted, Parse;
      var before := (discs, tracks, signatures);
      for k := 0 to |games|
        invariant Imported(old(State()), dataset, games, 0) == Imported(State(), dataset, games, k)
      {
        var disc := Some([]);
        if games[k].cue.Some? {
          disc := ParseCue(games[k].cue.value, games[k].files);
        }
        if disc == None {
          discs, tracks, signatures := before.0, before.1, before.2;
          return false;
        }
        InsertDisc(DiscId(dataset, k, games[k].title), disc.value, games[k].files);
      }
      return true;
    }

    /** `compare`. */
    method Compare(observed: seq<Track>, dataset: Option<string>) returns (v: Verdict)
      ensures IsVerdict(v, State(), observed, dataset) && Judges(v, State(), observed, dataset)
    {
      hide SignatureOf, TracksMatch, Selected, IsVerdict, Judges;
      var candidates := Candidates(State(), observed, dataset);
      if candidates == {} {
        NoCandidates(State(), observed, dataset);
        v := if SameCount(State(), observed, dataset) != {} then Conflict else NotApplicable;
        VerdictJudges(v, State(), observed, dataset);
        return;
      }
      var matches, conflicts, todo := [], [], candidates;
      while todo != {}
        invariant todo <= candidates && (forall id :: id in matches ==> id in candidates - todo)
        invariant forall i, j :: 0 <= i < j < |matches| ==> matches[i] != matches[j]
        invariant forall id :: id in candidates - todo ==>
          (TracksMatch(observed, Selected(RowsAt(tracks, id))) <==> id in matches)
        invariant |matches| + |conflicts| + |todo| == |candidates|
      {
        var candidate :| candidate in todo;
        todo := todo - {candidate};
        if TracksMatch(observed, Selected(RowsAt(tracks, candidate))) {
          matches := matches + [candidate];
        } else {
          conflicts := conflicts + [candidate];
        }
      }
      assert forall id :: id in matches <==> id in Matching(State(), observed, dataset);
      v := if |matches| == 1 then ExactMatch(matches[0]) else if |matches| > 1 then Ambiguous
           else if |conflicts| != 0 then Conflict else NoMatch;
      VerdictIsRight(State(), observed, dataset, matches, |conflicts|, v);
      VerdictJudges(v, State(), observed, dataset);
    }
  }

  /** The rows match exactly when they fit: the order of the numbers and the comparison track by track amount to it. */
  lemma MatchIffFit(observed: seq<Track>, rows: map<nat, Row>)
    ensures TracksMatch(observed, Selected(rows)) <==> RowsFit(rows, observed)
  {
    hide TrackMatches, AgreesWith, TracksMatch, Selected, RowsFit;
    if TracksMatch(observed, Selected(rows)) {
      MatchFits(observed, rows);
    }
    if RowsFit(rows, observed) {
      FitMatches(observed, rows);
    }
  }

  lemma MatchFits(observed: seq<Track>, rows: map<nat, Row>)
    requires TracksMatch(observed, Selected(rows))
    ensures RowsFit(rows, observed)
  {
    hide TrackMatches, AgreesWith;
    MatchHasNumbers(observed, rows);
    AscendingHas(rows.Keys);
    AscendingAscends(rows.Keys);
    assert NumbersIn(observed) == Ascending(rows.Keys);
    forall i | 0 <= i < |observed|
      ensures observed[i].number in rows && AgreesWith(observed[i], rows[observed[i].number])
    {
      assert NumbersIn(observed)[i] in rows;
      assert TrackMatches(observed[i], Selected(rows)[i].0, Selected(rows)[i].1);
      TrackMatchIff(observed[i], rows[observed[i].number]);
    }
  }

  lemma FitMatches(observed: seq<Track>, rows: map<nat, Row>)
    requires RowsFit(rows, observed)
    ensures TracksMatch(observed, Selected(rows))
  {
    hide TrackMatches, AgreesWith;
    AscendingIsSorted(NumbersIn(observed), rows.Keys);
    forall i | 0 <= i < |observed|
      ensures TrackMatches(observed[i], Selected(rows)[i].0, Selected(rows)[i].1)
    {
      TrackMatchIff(observed[i], rows[observed[i].number]);
    }
  }

  lemma TrackMatchIff(t: Track, row: Row)
    ensures TrackMatches(t, t.number, row) <==> AgreesWith(t, row)
  {
    assert (exists k :: Has(row, k)) <==> Has(row, Sha1) || Has(row, Md5) || Has(row, Crc32);
    if t.hashes.Some? {
      var h := t.hashes.value;
      assert Shares(t, row) <==>
        || (Has(row, Sha1) && OfFile(h, Sha1) == OfRow(row, Sha1)) || (Has(row, Md5) && OfFile(h, Md5) == OfRow(row, Md5))
        || (Has(row, Crc32) && OfFile(h, Crc32) == OfRow(row, Crc32));
    }
  }

  lemma LayoutIff(s: Signature, observed: seq<Track>)
    ensures s == SignatureOf(observed) <==> LayoutFits(s, observed)
    ensures LayoutFits(s, observed) ==> s.count == |observed|
  {
    if LayoutFits(s, observed) {
      assert s.layout == SignatureOf(observed).layout;
    }
  }

  /** Exactly the discs that fit are among the matches. */
  lemma MatchingIffFits(t: Tables, observed: seq<Track>, dataset: Option<string>, id: DiscId)
    ensures id in Matching(t, observed, dataset) <==> Fits(t, observed, dataset, id)
    ensures id in SameCount(t, observed, dataset) <==> Comparable(t, observed, dataset, id)
  {
    hide SignatureOf, LayoutFits, TracksMatch, Selected, RowsFit;
    if id in t.signatures {
      LayoutIff(t.signatures[id], observed);
      MatchIffFit(observed, RowsAt(t.tracks, id));
    }
  }

  /** A track that shares no hash with its row keeps the disc out, whatever else agrees. */
  lemma UnsharedHashKeepsOut(t: Tables, observed: seq<Track>, dataset: Option<string>, id: DiscId, i: nat, k: HashKind)
    requires i < |observed| && id in t.tracks && observed[i].number in t.tracks[id]
    requires Has(t.tracks[id][observed[i].number], k) && !Shares(observed[i], t.tracks[id][observed[i].number])
    ensures id !in Matching(t, observed, dataset)
  {
    hide LayoutFits, Matching, Has, Shares;
    MatchingIffFits(t, observed, dataset, id);
    assert !AgreesWith(observed[i], t.tracks[id][observed[i].number]);
  }

  /** A verdict by the matches judges by what fits. */
  lemma VerdictJudges(v: Verdict, t: Tables, observed: seq<Track>, dataset: Option<string>)
    requires IsVerdict(v, t, observed, dataset)
    ensures Judges(v, t, observed, dataset)
  {
    hide Matching, Fits, Comparable, SameCount;
    SoleFit(t, observed, dataset);
    TwoFit(t, observed, dataset);
    NoFit(t, observed, dataset);
  }

  lemma SoleFit(t: Tables, observed: seq<Track>, dataset: Option<string>)
    ensures forall id :: Matching(t, observed, dataset) == {id} <==>
      Fits(t, observed, dataset, id) && forall other :: Fits(t, observed, dataset, other) ==> other == id
  {
    hide Matching, Fits, Comparable, SameCount;
    forall id
      ensures Matching(t, observed, dataset) == {id} <==>
        Fits(t, observed, dataset, id) && forall other :: Fits(t, observed, dataset, other) ==> other == id
    {
      MatchingIsFits(t, observed, dataset);
      if Fits(t, observed, dataset, id) && forall other :: Fits(t, observed, dataset, other) ==> other == id {
        assert Matching(t, observed, dataset) == {id};
      }
    }
  }

  lemma TwoFit(t: Tables, observed: seq<Track>, dataset: Option<string>)
    ensures 2 <= |Matching(t, observed, dataset)| <==>
      exists a, b :: a != b && Fits(t, observed, dataset, a) && Fits(t, observed, dataset, b)
  {
    hide Matching, Fits, Comparable, SameCount;
    MatchingIsFits(t, observed, dataset);
    var m := Matching(t, observed, dataset);
    if 2 <= |m| {
      var a :| a in m;
      assert m != {a};
      var b :| b in m && b != a;
      assert Fits(t, observed, dataset, a) && Fits(t, observed, dataset, b);
    }
    if a, b :| a != b && Fits(t, observed, dataset, a) && Fits(t, observed, dataset, b) {
      TwoElements(m, a);
    }
  }

  lemma NoFit(t: Tables, observed: seq<Track>, dataset: Option<string>)
    ensures Matching(t, observed, dataset) == {} <==> forall id :: !Fits(t, observed, dataset, id)
    ensures SameCount(t, observed, dataset) == {} <==> forall id :: !Comparable(t, observed, dataset, id)
  {
    hide Matching, Fits, Comparable, SameCount;
    MatchingIsFits(t, observed, dataset);
  }

  lemma MatchingIsFits(t: Tables, observed: seq<Track>, dataset: Option<string>)
    ensures forall id :: id in Matching(t, observed, dataset) <==> Fits(t, observed, dataset, id)
    ensures forall id :: id in SameCount(t, observed, dataset) <==> Comparable(t, observed, dataset, id)
  {
    hide Matching, Fits, Comparable, SameCount;
    forall id
      ensures id in Matching(t, observed, dataset) <==> Fits(t, observed, dataset, id)
      ensures id in SameCount(t, observed, dataset) <==> Comparable(t, observed, dataset, id)
    {
      MatchingIffFits(t, observed, dataset, id);
    }
  }

  lemma NoCandidates(t: Tables, observed: seq<Track>, dataset: Option<string>)
    requires Candidates(t, observed, dataset) == {}
    ensures IsVerdict(if SameCount(t, observed, dataset) != {} then Conflict else NotApplicable, t, observed, dataset)
  {
    hide Candidates, SameCount, TracksMatch, Selected;
    assert Matching(t, observed, dataset) == {};
  }

  /** The verdict by the candidates that match, in the order met, and the number of the others. */
  lemma VerdictIsRight(t: Tables, observed: seq<Track>, dataset: Option<string>, matches: seq<DiscId>, conflicts: nat, v: Verdict)
    requires Candidates(t, observed, dataset) != {} && |matches| + conflicts == |Candidates(t, observed, dataset)|
    requires forall id :: id in matches <==> id in Matching(t, observed, dataset)
    requires forall i, j :: 0 <= i < j < |matches| ==> matches[i] != matches[j]
    requires v == if |matches| == 1 then ExactMatch(matches[0]) else if |matches| > 1 then Ambiguous
                  else if conflicts != 0 then Conflict else NoMatch
    ensures IsVerdict(v, t, observed, dataset)
  {
    hide Candidates, SameCount, Matching;
    CandidatesHaveCount(t, observed, dataset);
    DistinctCount(matches, Matching(t, observed, dataset));
    if |matches| == 1 {
      assert Matching(t, observed, dataset) == {matches[0]};
    }
  }

  lemma StoredMore(rows: map<nat, Row>, ts: seq<Track>, i: nat, files: map<string, Hashes>)
    requires i < |ts|
    ensures Stored(rows, ts[..i + 1], files) == Stored(rows, ts[..i], files)[ts[i].number := RowOf(ts[i], files)]
    ensures Stored(rows, ts[..0], files) == rows
  {
    assert ts[..i + 1][..i] == ts[..i];
  }

  lemma CandidatesHaveCount(t: Tables, observed: seq<Track>, dataset: Option<string>)
    ensures Candidates(t, observed, dataset) <= SameCount(t, observed, dataset)
  {}

  lemma {:induction false} DistinctCount<T>(xs: seq<T>, s: set<T>)
    requires forall i, j :: 0 <= i < j < |xs| ==> xs[i] != xs[j]
    requires forall x :: x in s <==> x in xs
    ensures |s| == |xs|
  {
    if xs != [] {
      var rest := xs[..|xs| - 1];
      DistinctCount(rest, s - {xs[|xs| - 1]});
    } else {
      assert s == {};
    }
  }

  // ---------------------------------------------------------------- a stored disc against its own rows

  ghost predicate HashedBy(ts: seq<Track>, files: map<string, Hashes>) {
    forall i :: 0 <= i < |ts| ==> ts[i].hashes == HashesOf(files, ts[i].file)
  }

  /** Every row that was there before is replaced by one of the tracks. */
  ghost predicate Replaced(rows: map<nat, Row>, ts: seq<Track>) { forall n :: n in rows ==> n in NumbersIn(ts) }

  lemma {:induction false} StoredHas(rows: map<nat, Row>, ts: seq<Track>, files: map<string, Hashes>)
    ensures forall n :: n in Stored(rows, ts, files) <==> n in rows || n in NumbersIn(ts)
    ensures Increasing(ts) ==>
      forall i :: 0 <= i < |ts| ==> ts[i].number in Stored(rows, ts, files)
                                    && Stored(rows, ts, files)[ts[i].number] == RowOf(ts[i], files)
  {
    hide RowOf;
    if ts != [] {
      var rest, last := ts[..|ts| - 1], ts[|ts| - 1];
      StoredHas(rows, rest, files);
      assert NumbersIn(ts) == NumbersIn(rest) + [last.number];
      assert forall i :: 0 <= i < |rest| ==> rest[i] == ts[i];
    }
  }

  lemma OwnRowMatches(t: Track, files: map<string, Hashes>)
    requires t.hashes == HashesOf(files, t.file)
    ensures TrackMatches(t, t.number, RowOf(t, files))
  {}

  /** Rows come back by track number, so a disc matches its own rows exactly when its track numbers strictly
      increase and no row of an earlier import of the same disc is left over. */
  lemma OwnTracksMatchIff(rows: map<nat, Row>, ts: seq<Track>, files: map<string, Hashes>)
    requires HashedBy(ts, files)
    ensures TracksMatch(ts, Selected(Stored(rows, ts, files))) <==> Increasing(ts) && Replaced(rows, ts)
  {
    hide Stored, RowOf, TrackMatches, TracksMatch, Selected, Increasing, Replaced;
    if TracksMatch(ts, Selected(Stored(rows, ts, files))) {
      MatchIsOwn(rows, ts, files);
    }
    if Increasing(ts) && Replaced(rows, ts) {
      OwnIsMatch(rows, ts, files);
    }
  }

  lemma MatchIsOwn(rows: map<nat, Row>, ts: seq<Track>, files: map<string, Hashes>)
    requires TracksMatch(ts, Selected(Stored(rows, ts, files)))
    ensures Increasing(ts) && Replaced(rows, ts)
  {
    hide Stored, RowOf, TracksMatch, Selected;
    var stored := Stored(rows, ts, files);
    MatchHasNumbers(ts, stored);
    AscendingHas(stored.Keys);
    AscendingAscends(stored.Keys);
    StoredHas(rows, ts, files);
    assert NumbersIn(ts) == Ascending(stored.Keys);
  }

  lemma OwnIsMatch(rows: map<nat, Row>, ts: seq<Track>, files: map<string, Hashes>)
    requires HashedBy(ts, files) && Increasing(ts) && Replaced(rows, ts)
    ensures TracksMatch(ts, Selected(Stored(rows, ts, files)))
  {
    hide Stored, RowOf, TrackMatches;
    var stored := Stored(rows, ts, files);
    StoredHas(rows, ts, files);
    AscendingIsSorted(NumbersIn(ts), stored.Keys);
    forall i | 0 <= i < |ts|
      ensures TrackMatches(ts[i], Selected(stored)[i].0, Selected(stored)[i].1)
    {
      OwnRowMatches(ts[i], files);
    }
  }

  lemma MatchHasNumbers(ts: seq<Track>, rows: map<nat, Row>)
    requires TracksMatch(ts, Selected(rows))
    ensures |Ascending(rows.Keys)| == |ts| && forall i :: 0 <= i < |ts| ==> ts[i].number == Ascending(rows.Keys)[i]
  {
    hide HashMatches;
    forall i | 0 <= i < |ts|
      ensures ts[i].number == Ascending(rows.Keys)[i]
    {
      assert TrackMatches(ts[i], Selected(rows)[i].0, Selected(rows)[i].1);
    }
  }

  // ---------------------------------------------------------------- a dataset recognises its discs

  lemma InsertedIsFoundIff(t: Tables, id: DiscId, disc: seq<Session>, files: map<string, Hashes>, dataset: Option<string>)
    requires HashedBy(AllTracks(disc), files) && (dataset == None || dataset == Some(id.dataset))
    ensures id in Matching(Inserted(t, id, disc, files), AllTracks(disc), dataset)
            <==> Increasing(AllTracks(disc)) && Replaced(RowsAt(t.tracks, id), AllTracks(disc))
  {
    hide Selected, TracksMatch, SignatureOf, AllTracks, Increasing, Replaced;
    OwnTracksMatchIff(RowsAt(t.tracks, id), AllTracks(disc), files);
  }

  /** The file of a track has a hash, and the observed track has the same. */
  ghost predicate SameHash(observed: Track, stored: Track, k: HashKind) {
    && stored.hashes.Some? && OfFile(stored.hashes.value, k).Some? && OfFile(stored.hashes.value, k) != Some("")
    && observed.hashes.Some? && OfFile(observed.hashes.value, k) == OfFile(stored.hashes.value, k)
  }

  /** An observed track is a stored one in everything that is compared; they share a hash if the stored one has any. */
  ghost predicate SameTrack(observed: Track, stored: Track) {
    && observed.number == stored.number && observed.session == stored.session && observed.mode == stored.mode
    && observed.sectorSize == stored.sectorSize && observed.sectorCount == stored.sectorCount
    && observed.startLba == stored.startLba && observed.pregap == stored.pregap && observed.postgap == stored.postgap
    && ((stored.hashes.Some? && exists k :: OfFile(stored.hashes.value, k).Some? && OfFile(stored.hashes.value, k) != Some("")) ==>
          exists k :: SameHash(observed, stored, k))
  }

  /** Comparing with a disc that was imported with increasing track numbers: it fits iff it is of the dataset asked for and
      every track observed is the imported one at its position. */
  lemma ImportedFitsIff(t: Tables, id: DiscId, disc: seq<Session>, files: map<string, Hashes>, observed: seq<Track>,
                        dataset: Option<string>)
    requires HashedBy(AllTracks(disc), files)
    requires Increasing(AllTracks(disc)) && Replaced(RowsAt(t.tracks, id), AllTracks(disc))
    ensures var ts := AllTracks(disc);
      Fits(Inserted(t, id, disc, files), observed, dataset, id) <==>
        && (dataset == None || dataset == Some(id.dataset))
        && |observed| == |ts| && forall i :: 0 <= i < |ts| ==> SameTrack(observed[i], ts[i])
  {
    hide AllTracks, SignatureOf, LayoutFits, RowsFit, SameTrack, Stored, Increasing, Replaced;
    var ts, u := AllTracks(disc), Inserted(t, id, disc, files);
    LayoutIff(u.signatures[id], observed);
    RowsFitIff(RowsAt(t.tracks, id), ts, files, observed);
    SignatureCounts(ts);
    NothingStored(RowsAt(t.tracks, id), files);
  }

  lemma SignatureCounts(ts: seq<Track>)
    ensures SignatureOf(ts).count == |ts|
  {}

  lemma NothingStored(rows: map<nat, Row>, files: map<string, Hashes>)
    ensures Stored(rows, [], files) == rows
  {}

  lemma RowsFitIff(rows: map<nat, Row>, ts: seq<Track>, files: map<string, Hashes>, observed: seq<Track>)
    requires HashedBy(ts, files) && Increasing(ts) && Replaced(rows, ts)
    ensures SignatureOf(ts) == SignatureOf(observed) && RowsFit(Stored(rows, ts, files), observed) <==>
      |observed| == |ts| && forall i :: 0 <= i < |ts| ==> SameTrack(observed[i], ts[i])
  {
    hide Stored, AgreesWith, SameTrack, RowOf;
    SameLayoutIff(ts, observed);
    StoredHas(rows, ts, files);
    if |observed| == |ts| && forall i :: 0 <= i < |ts| ==> LayoutOf(observed[i]) == LayoutOf(ts[i]) {
      assert NumbersIn(observed) == NumbersIn(ts);
      forall i | 0 <= i < |ts|
        ensures AgreesWith(observed[i], RowOf(ts[i], files)) <==> SameTrack(observed[i], ts[i])
      {
        TrackAgreesIff(observed[i], ts[i], files);
      }
    } else {
      forall i | 0 <= i < |ts| && i < |observed|
        ensures SameTrack(observed[i], ts[i]) ==> LayoutOf(observed[i]) == LayoutOf(ts[i])
      {
        SameHasLayout(observed[i], ts[i]);
      }
    }
  }

  lemma SameHasLayout(observed: Track, stored: Track)
    ensures SameTrack(observed, stored) ==> LayoutOf(observed) == LayoutOf(stored)
  {}

  lemma SameLayoutIff(ts: seq<Track>, observed: seq<Track>)
    ensures SignatureOf(ts) == SignatureOf(observed) <==>
      |observed| == |ts| && forall i :: 0 <= i < |ts| ==> LayoutOf(observed[i]) == LayoutOf(ts[i])
  {
    if SignatureOf(ts) == SignatureOf(observed) {
      forall i | 0 <= i < |ts|
        ensures LayoutOf(observed[i]) == LayoutOf(ts[i])
      {
        assert SignatureOf(ts).layout[i] == SignatureOf(observed).layout[i];
      }
    }
    if |observed| == |ts| && forall i :: 0 <= i < |ts| ==> LayoutOf(observed[i]) == LayoutOf(ts[i]) {
      assert SignatureOf(ts).layout == SignatureOf(observed).layout;
    }
  }

  lemma TrackAgreesIff(observed: Track, stored: Track, files: map<string, Hashes>)
    requires stored.hashes == HashesOf(files, stored.file) && LayoutOf(observed) == LayoutOf(stored)
    ensures AgreesWith(observed, RowOf(stored, files)) <==> SameTrack(observed, stored)
  {
    var row := RowOf(stored, files);
    forall k
      ensures Has(row, k) <==> stored.hashes.Some? && OfFile(stored.hashes.value, k).Some? && OfFile(stored.hashes.value, k) != Some("")
      ensures Has(row, k) ==> OfRow(row, k) == OfFile(stored.hashes.value, k)
    {}
    if Shares(observed, row) {
      var k :| Has(row, k) && OfFile(observed.hashes.value, k) == OfRow(row, k);
      assert SameHash(observed, stored, k);
    }
    if k :| SameHash(observed, stored, k) {
      assert Has(row, k) && OfFile(observed.hashes.value, k) == OfRow(row, k);
    }
  }

  lemma InsertedKeepsOthers(t: Tables, id: DiscId, disc: seq<Session>, files: map<string, Hashes>, other: DiscId,
                            observed: seq<Track>, dataset: Option<string>)
    requires other != id
    ensures RowsAt(Inserted(t, id, disc, files).tracks, other) == RowsAt(t.tracks, other)
    ensures other in Matching(Inserted(t, id, disc, files), observed, dataset) <==> other in Matching(t, observed, dataset)
  {
    hide Selected, TracksMatch, SignatureOf, AllTracks, Stored;
  }

  lemma {:induction false} ImportedKeepsOthers(t: Tables, dataset: string, games: seq<Game>, k: nat, other: DiscId,
                                               observed: seq<Track>, asked: Option<string>)
    requires k <= |games| && Imported(t, dataset, games, k).Some?
    requires forall i :: k <= i < |games| ==> other != DiscId(dataset, i, games[i].title)
    ensures other in Matching(Imported(t, dataset, games, k).value, observed, asked) <==> other in Matching(t, observed, asked)
    decreases |games| - k
  {
    hide Matching, Inserted, Parse;
    if k < |games| {
      var id := DiscId(dataset, k, games[k].title);
      InsertedKeepsOthers(t, id, DiscOf(games[k]).value, games[k].files, other, observed, asked);
      ImportedKeepsOthers(Inserted(t, id, DiscOf(games[k]).value, games[k].files), dataset, games, k + 1, other, observed, asked);
    }
  }

  /** After a dataset is imported, each of its discs is found again among those that match it iff its track numbers
      strictly increase and the import left none of its earlier rows behind. */
  lemma {:induction false} ImportedIsFoundIff(t: Tables, dataset: string, games: seq<Game>, k: nat, i: nat, asked: Option<string>)
    requires k <= i < |games| && Imported(t, dataset, games, k).Some? && (asked == None || asked == Some(dataset))
    ensures DiscOf(games[i]).Some?
    ensures var ts, id := AllTracks(DiscOf(games[i]).value), DiscId(dataset, i, games[i].title);
      id in Matching(Imported(t, dataset, games, k).value, ts, asked)
      <==> Increasing(ts) && Replaced(RowsAt(t.tracks, id), ts)
    decreases |games| - k
  {
    hide Matching, Inserted, Parse, AllTracks, Increasing, Replaced, DiscOf;
    var id := DiscId(dataset, k, games[k].title);
    var disc := DiscOf(games[k]).value;
    var next := Inserted(t, id, disc, games[k].files);
    if k == i {
      DiscIsHashed(games[k]);
      InsertedIsFoundIff(t, id, disc, games[k].files, asked);
      ImportedKeepsOthers(next, dataset, games, k + 1, id, AllTracks(disc), asked);
    } else {
      ImportedIsFoundIff(next, dataset, games, k + 1, i, asked);
      var its := DiscId(dataset, i, games[i].title);
      InsertedKeepsOthers(t, id, disc, games[k].files, its, AllTracks(DiscOf(games[i]).value), asked);
    }
  }

  lemma DiscIsHashed(g: Game)
    requires DiscOf(g).Some?
    ensures HashedBy(AllTracks(DiscOf(g).value), g.files)
  {
    hide Parse;
    if g.cue.Some? {
      ParsedIsWellFormed(g.cue.value, g.files);
      AllTracksHashed(DiscOf(g).value, g.files);
    }
  }

  lemma {:induction false} AllTracksHashed(disc: seq<Session>, files: map<string, Hashes>)
    requires forall i :: 0 <= i < |disc| ==> SessionIsWellFormed(disc[i], files)
    ensures HashedBy(AllTracks(disc), files)
  {
    if disc != [] {
      AllTracksHashed(disc[1..], files);
      assert SessionIsWellFormed(disc[0], files);
    }
  }

  // ---------------------------------------------------------------- from the printed sheet to the verdict

  function TrackNumbers(disc: seq<CueSession>): seq<nat> {
    if disc == [] then []
    else
      var ts := disc[0].tracks;
      seq(|ts|, k requires 0 <= k < |ts| => ts[k].number) + TrackNumbers(disc[1..])
  }

  lemma {:induction false} PublishedNumbers(disc: seq<CueSession>, files: map<string, Hashes>)
    requires (forall i :: 0 <= i < |disc| ==> SessionIsSound(disc[i])) && Published(disc, files).Some?
    ensures var ts := AllTracks(Published(disc, files).value);
      |ts| == |TrackNumbers(disc)| && forall i :: 0 <= i < |ts| ==> ts[i].number == TrackNumbers(disc)[i]
    decreases |disc|
  {
    hide FinishAll, TrackIsSound, TrackIsPublished, Publishable;
    if disc != [] {
      assert SessionIsSound(disc[0]);
      SessionIsPublishedIff(disc[0], files);
      PublishedNumbers(disc[1..], files);
      var r := Published(disc, files).value;
      assert r[1..] == Published(disc[1..], files).value;
      NumbersOf(disc[0], files, r[0].tracks);
    }
  }

  lemma NumbersOf(s: CueSession, files: map<string, Hashes>, ts: seq<Track>)
    requires |ts| == |s.tracks| && forall k :: 0 <= k < |ts| ==> TrackIsPublished(s.tracks[k], s.number, files, ts[k])
    ensures forall k :: 0 <= k < |ts| ==> ts[k].number == s.tracks[k].number
  {}

  /** A disc whose sheet was printed and imported into tables without rows of it: comparing it answers EXACT_MATCH with
      it, or AMBIGUOUS when another stored disc matches too, iff its track numbers strictly increase over all its
      sessions; otherwise it is never recognised. */
  lemma PrintedDiscIsRecognised(t: Tables, dataset: string, games: seq<Game>, i: nat, disc: seq<CueSession>,
                                parsed: seq<Session>, asked: Option<string>, v: Verdict)
    requires i < |games| && Imported(t, dataset, games, 0).Some? && (asked == None || asked == Some(dataset))
    requires DiscIsSound(disc) && games[i].cue == Some(Print(disc)) && DiscId(dataset, i, games[i].title) !in t.tracks
    requires DiscOf(games[i]) == Some(parsed) && IsVerdict(v, Imported(t, dataset, games, 0).value, AllTracks(parsed), asked)
    ensures Some(parsed) == Published(disc, games[i].files)
    ensures var id, m := DiscId(dataset, i, games[i].title),
                         Matching(Imported(t, dataset, games, 0).value, AllTracks(parsed), asked);
      if forall j, k :: 0 <= j < k < |TrackNumbers(disc)| ==> TrackNumbers(disc)[j] < TrackNumbers(disc)[k]
      then v == if m == {id} then ExactMatch(id) else Ambiguous
      else v != ExactMatch(id)
  {
    hide Print, Matching, Published, TrackNumbers, AllTracks, Parse;
    var files, id := games[i].files, DiscId(dataset, i, games[i].title);
    PrintThenParse(disc, files);
    ImportedIsFoundIff(t, dataset, games, 0, i, asked);
    PublishedNumbers(disc, files);
    var m := Matching(Imported(t, dataset, games, 0).value, AllTracks(parsed), asked);
    if id in m && m != {id} {
      TwoElements(m, id);
    }
  }

  lemma TwoElements<T>(s: set<T>, x: T)
    requires x in s && s != {x}
    ensures 2 <= |s|
  {
    var y :| y in s && y != x;
    assert {x, y} <= s;
    SubsetSize({x, y}, s);
  }

  lemma {:induction false} SubsetSize<T>(a: set<T>, b: set<T>)
    requires a <= b
    ensures |a| <= |b|
  {
    if x :| x in a {
      SubsetSize(a - {x}, b - {x});
    }
  }

  /** Numbering restarts in each session of many discs: such a disc does not match itself. */
  lemma RestartedNumbersConflict(t: Tables, id: DiscId, files: map<string, Hashes>, a: Track, b: Track)
    requires a.number == b.number && HashedBy([a, b], files)
    ensures var disc := [Session(1, [a]), Session(2, [b])];
      id !in Matching(Inserted(t, id, disc, files), AllTracks(disc), None)
  {
    var disc := [Session(1, [a]), Session(2, [b])];
    AllTracksOfOne(2, [b]);
    assert disc[1..] == [Session(2, [b])] && [a] + [b] == [a, b];
    var ts := [a, b];
    assert AllTracks(disc) == ts;
    InsertedIsFoundIff(t, id, disc, files, None);
    assert !(ts[0].number < ts[1].number);
  }

  lemma AllTracksOfOne(n: nat, ts: seq<Track>)
    ensures AllTracks([Session(n, ts)]) == ts
  {
    var disc := [Session(n, ts)];
    assert disc[1..] == [] && ts + [] == ts;
  }

  /** The identifier does not cover the CUE archive: a disc imported again with fewer tracks keeps an old row and no
      longer matches itself. */
  lemma LeftoverRowConflicts(t: Tables, id: DiscId, files: map<string, Hashes>, a: Track, b: Track)
    requires a.number < b.number && HashedBy([a, b], files)
    ensures var first, again := [Session(1, [a, b])], [Session(1, [a])];
      id !in Matching(Inserted(Inserted(t, id, first, files), id, again, files), AllTracks(again), None)
  {
    hide Matching, Stored, SignatureOf, AllTracks;
    var first, again := [Session(1, [a, b])], [Session(1, [a])];
    AllTracksOfOne(1, [a, b]);
    AllTracksOfOne(1, [a]);
    assert HashedBy([a], files) by {
      assert [a, b][0] == a;
    }
    var mid := Inserted(t, id, first, files);
    StoredHas(RowsAt(t.tracks, id), [a, b], files);
    assert NumbersIn([a, b])[1] == b.number && NumbersIn([a]) == [a.number];
    assert b.number in RowsAt(mid.tracks, id);
    InsertedIsFoundIff(mid, id, again, files, None);
  }
}
