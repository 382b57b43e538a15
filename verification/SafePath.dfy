/** Confinement of member names to the analysis root (src/rab/analysis.py, `_safe_logical`). */
module SafePath {
  import opened Common
  import opened AnalysisTypes
  import opened Text

  /** Path components, as PurePosixPath keeps them: empty ones and "." are dropped. */
  function Parts(s: string): seq<string>
    decreases |s|
  {
    var i := IndexOf(s, '/');
    var rest := if i == |s| then [] else Parts(s[i + 1..]);
    if s[..i] == "" || s[..i] == "." then rest else [s[..i]] + rest
  }

  function Join(parts: seq<string>): string {
    if parts == [] then "" else if |parts| == 1 then parts[0] else parts[0] + "/" + Join(parts[1..])
  }

  function Normalise(s: string): string {
    if s == "" then "" else [if s[0] == '\\' then '/' else s[0]] + Normalise(s[1..])
  }

  /** `_safe_logical`: a relative path without ".." or a drive prefix, or a refusal. */
  function SafeLogical(name: string): Result<string, Failure> {
    if '\0' in name then Err(PolicyError)
    else
      var text := Normalise(name);
      var parts := Parts(text);
      if (text != "" && text[0] == '/') || ".." in parts || (parts != [] && ':' in parts[0]) then Err(PolicyError)
      else Ok(if Join(parts) == "" then "member" else Join(parts))
  }

  /** A component that stays where it is put: it cannot climb, name a drive's root or vanish. */
  predicate Clean(part: string) {
    part != "" && part != "." && part != ".." && '/' !in part && '\\' !in part && '\0' !in part
  }

  ghost predicate AllClean(parts: seq<string>) {
    forall i :: 0 <= i < |parts| ==> Clean(parts[i])
  }

  /** `path` names something below the analysis root and nothing else. */
  ghost predicate Confined(path: string) {
    exists parts :: parts != [] && AllClean(parts) && ':' !in parts[0] && path == Join(parts)
  }

  lemma {:induction false} JoinCharacters(parts: seq<string>)
    requires AllClean(parts)
    ensures '\\' !in Join(parts) && '\0' !in Join(parts)
    ensures parts != [] ==> Join(parts) != "" && Join(parts)[0] != '/' && Join(parts)[|Join(parts)| - 1] != '/'
  {
    if 1 < |parts| {
      JoinCharacters(parts[1..]);
      assert Clean(parts[0]);
    }
  }

  lemma PartsCons(head: string, tail: string)
    requires Clean(head)
    ensures Parts(head + "/" + tail) == [head] + Parts(tail)
    ensures Parts(head) == [head]
  {
    IndexAfter(head, "/" + tail, '/');
    IndexAfter(head, "", '/');
    var all := head + "/" + tail;
    assert all == head + ("/" + tail) && head == head + "";
    assert all[..|head|] == head && all[|head| + 1..] == tail && head[..|head|] == head;
  }

  lemma {:induction false} PartsOfJoin(parts: seq<string>)
    requires AllClean(parts)
    ensures Parts(Join(parts)) == parts
  {
    hide Parts;
    if parts == [] {
      NoParts();
    } else {
      assert Clean(parts[0]);
      PartsCons(parts[0], Join(parts[1..]));
      assert parts == [parts[0]] + parts[1..];
      if 1 < |parts| {
        PartsOfJoin(parts[1..]);
      }
    }
  }

  lemma NoParts()
    ensures Parts("") == []
  {}

  lemma {:induction false} NormaliseIdentity(s: string)
    requires '\\' !in s
    ensures Normalise(s) == s
  {
    if s != "" {
      NormaliseIdentity(s[1..]);
    }
  }

  lemma {:induction false} NormaliseClears(s: string)
    ensures '\\' !in Normalise(s) && ('\0' !in s ==> '\0' !in Normalise(s))
  {
    if s != "" {
      NormaliseClears(s[1..]);
    }
  }

  lemma {:induction false} PartsAreClean(s: string)
    requires '\\' !in s && '\0' !in s
    ensures forall i :: 0 <= i < |Parts(s)| ==> Parts(s)[i] == ".." || Clean(Parts(s)[i])
    decreases |s|
  {
    var i := IndexOf(s, '/');
    if i < |s| {
      PartsAreClean(s[i + 1..]);
    }
  }

  /** Clean components without a drive prefix are accepted unchanged. */
  lemma CleanIsAccepted(parts: seq<string>)
    requires parts != [] && AllClean(parts) && ':' !in parts[0]
    ensures SafeLogical(Join(parts)) == Ok(Join(parts))
  {
    JoinCharacters(parts);
    PartsOfJoin(parts);
    NormaliseIdentity(Join(parts));
  }

  /** Whatever name a hostile container supplies, an accepted path stays below the root and is
      accepted again unchanged. */
  lemma AcceptedIsConfined(name: string)
    requires SafeLogical(name).Ok?
    ensures Confined(SafeLogical(name).value)
    ensures SafeLogical(SafeLogical(name).value) == SafeLogical(name)
  {
    var parts := Parts(Normalise(name));
    NormaliseClears(name);
    PartsAreClean(Normalise(name));
    var accepted := if parts == [] then ["member"] else parts;
    assert AllClean(accepted);
    JoinCharacters(parts);
    assert SafeLogical(name).value == Join(accepted);
    CleanIsAccepted(accepted);
  }

  // ---------------------------------------------------------------- every name, by its components

  predicate IsSeparator(c: char) { c == '/' || c == '\\' }

  /** A name as components, which may be empty, with a separator between any two. */
  function Woven(parts: seq<string>, separators: string): string
    requires |parts| == |separators| + 1
    decreases |separators|
  {
    if separators == "" then parts[0] else parts[0] + [separators[0]] + Woven(parts[1..], separators[1..])
  }

  ghost predicate IsComponents(parts: seq<string>, separators: string) {
    && |parts| == |separators| + 1 && (forall i :: 0 <= i < |separators| ==> IsSeparator(separators[i]))
    && forall i :: 0 <= i < |parts| ==> '/' !in parts[i] && '\\' !in parts[i]
  }

  /** The components that count. */
  function Counting(parts: seq<string>): seq<string> {
    if parts == [] then []
    else (if parts[0] == "" || parts[0] == "." then [] else [parts[0]]) + Counting(parts[1..])
  }

  /** A name is refused exactly if it contains a NUL, starts with a separator, climbs, or has a colon in the first
      component that counts; otherwise the components that count are joined by slashes, if there are any. Every name can
      be written like this. */
  lemma SafeLogicalIff(parts: seq<string>, separators: string)
    requires IsComponents(parts, separators)
    ensures var name, kept := Woven(parts, separators), Counting(parts);
      SafeLogical(name)
      == if '\0' in name || (1 < |parts| && parts[0] == "") || ".." in parts || (kept != [] && ':' in kept[0]) then Err(PolicyError)
         else if kept == [] then Ok("member")
         else Ok(Woven(kept, seq(|kept| - 1, _ => '/')))
  {
    hide Parts, Woven;
    var name, kept := Woven(parts, separators), Counting(parts);
    WovenIsParted(parts, separators);
    WovenStarts(parts, separators);
    CountingHas(parts);
    if kept != [] {
      JoinIsWoven(kept);
      assert kept[0] in kept;
      JoinStarts(kept);
    }
  }

  /** Each name is made of components. */
  lemma {:induction false} EveryNameIsWoven(name: string) returns (parts: seq<string>, separators: string)
    ensures IsComponents(parts, separators) && Woven(parts, separators) == name
  {
    if name == "" {
      return [""], "";
    }
    var ps, ss := EveryNameIsWoven(name[1..]);
    if IsSeparator(name[0]) {
      parts, separators := [""] + ps, [name[0]] + ss;
      assert parts[1..] == ps && separators[1..] == ss && "" + [name[0]] + name[1..] == name;
    } else {
      parts, separators := [[name[0]] + ps[0]] + ps[1..], ss;
      WovenHead([name[0]], ps, ss);
      assert [name[0]] + name[1..] == name;
    }
  }

  lemma WovenHead(head: string, parts: seq<string>, separators: string)
    requires |parts| == |separators| + 1
    ensures Woven([head + parts[0]] + parts[1..], separators) == head + Woven(parts, separators)
  {
    if separators != "" {
      var more := [head + parts[0]] + parts[1..];
      assert more[1..] == parts[1..];
      assert head + parts[0] + [separators[0]] + Woven(parts[1..], separators[1..])
             == head + (parts[0] + [separators[0]] + Woven(parts[1..], separators[1..]));
    }
  }

  lemma {:induction false} WovenIsParted(parts: seq<string>, separators: string)
    requires IsComponents(parts, separators)
    ensures Parts(Normalise(Woven(parts, separators))) == Counting(parts)
    decreases |separators|
  {
    hide Parts;
    NormaliseIdentity(parts[0]);
    if separators == "" {
      OnePart(parts[0]);
      assert parts[1..] == [];
    } else {
      var rest := Woven(parts[1..], separators[1..]);
      NormaliseConcat(parts[0] + [separators[0]], rest);
      NormaliseConcat(parts[0], [separators[0]]);
      NormaliseOne(separators[0]);
      WovenIsParted(parts[1..], separators[1..]);
      FirstPart(parts[0], Normalise(rest));
    }
  }

  lemma NormaliseOne(c: char)
    requires IsSeparator(c)
    ensures Normalise([c]) == "/"
  {
    assert [c][1..] == "" && Normalise("") == "";
  }

  lemma {:induction false} NormaliseConcat(a: string, b: string)
    ensures Normalise(a + b) == Normalise(a) + Normalise(b)
  {
    if a == "" {
      assert a + b == b;
    } else {
      assert (a + b)[1..] == a[1..] + b;
      NormaliseConcat(a[1..], b);
    }
  }

  lemma FirstPart(head: string, tail: string)
    requires '/' !in head
    ensures Parts(head + "/" + tail) == (if head == "" || head == "." then [] else [head]) + Parts(tail)
  {
    var all := head + "/" + tail;
    assert all == head + ("/" + tail);
    IndexAfter(head, "/" + tail, '/');
    assert all[..|head|] == head && all[|head| + 1..] == tail;
  }

  lemma OnePart(head: string)
    requires '/' !in head
    ensures Parts(head) == if head == "" || head == "." then [] else [head]
  {
    IndexAfter(head, "", '/');
    assert head + "" == head && head[..|head|] == head;
  }

  lemma WovenStarts(parts: seq<string>, separators: string)
    requires IsComponents(parts, separators)
    ensures var text := Normalise(Woven(parts, separators)); text != "" && text[0] == '/' <==> 1 < |parts| && parts[0] == ""
  {
    var name := Woven(parts, separators);
    if name != "" {
      assert separators != "" && parts[0] == "" ==> name[0] == separators[0];
      assert parts[0] != "" ==> name[0] == parts[0][0];
    }
  }

  lemma {:induction false} CountingHas(parts: seq<string>)
    ensures forall p :: p in Counting(parts) <==> p in parts && p != "" && p != "."
  {
    if parts != [] {
      CountingHas(parts[1..]);
    }
  }

  lemma {:induction false} JoinIsWoven(parts: seq<string>)
    requires parts != []
    ensures Join(parts) == Woven(parts, seq(|parts| - 1, _ => '/'))
  {
    var slashes := seq(|parts| - 1, _ => '/');
    if 1 < |parts| {
      assert slashes[1..] == seq(|parts[1..]| - 1, _ => '/');
      JoinIsWoven(parts[1..]);
    }
  }

  lemma JoinStarts(parts: seq<string>)
    requires parts != [] && parts[0] != ""
    ensures Join(parts) != ""
  {}

  // ---------------------------------------------------------------- joining a directory and a name

  function StripLeft(s: string): string {
    if s != "" && s[0] == '/' then StripLeft(s[1..]) else s
  }

  function StripRight(s: string): string {
    if s != "" && s[|s| - 1] == '/' then StripRight(s[..|s| - 1]) else s
  }

  /** The path of a directory entry: `_safe_logical((prefix + "/" + name).strip("/"))`. */
  function EntryPath(prefix: string, name: string): Result<string, Failure> {
    SafeLogical(StripRight(StripLeft(prefix + "/" + name)))
  }

  /** Below a directory, a clean name extends the path by exactly one component. */
  lemma EntryPathExtends(dir: seq<string>, name: string)
    requires AllClean(dir) && Clean(name) && ':' !in (dir + [name])[0]
    ensures EntryPath(Join(dir), name) == Ok(Join(dir + [name]))
  {
    JoinCharacters(dir);
    JoinCharacters(dir + [name]);
    JoinSnoc(dir, name);
    if dir == [] {
      assert "/" + name == "" + "/" + name;
      assert ("/" + name)[1..] == name;
    } else {
      assert StripLeft(Join(dir) + "/" + name) == Join(dir) + "/" + name;
    }
    CleanIsAccepted(dir + [name]);
    assert StripRight(StripLeft(Join(dir) + "/" + name)) == Join(dir + [name]);
  }

  lemma {:induction false} JoinSnoc(dir: seq<string>, name: string)
    ensures Join(dir + [name]) == if dir == [] then name else Join(dir) + "/" + name
  {
    if 1 < |dir| {
      JoinSnoc(dir[1..], name);
      assert (dir + [name])[1..] == dir[1..] + [name];
    } else if |dir| == 1 {
      assert (dir + [name])[1..] == [name];
    }
  }
}
