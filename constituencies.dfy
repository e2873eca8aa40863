/** src/constituencies.py: District Council constituencies, each tweeted
    with the camp that won it in 2019. */
module Constituencies {
  import opened Wrappers
  import opened Errors
  import opened Records
  import opened Builtins
  import Rows
  import PyInt
  import Paths
  import Text
  import Batch

  /** The political camps (`enum.Enum`). */
  datatype Faction = Democracy | Establishment | Nonpartisan

  /** `Faction.name`. */
  function Name(f: Faction): string {
    match f
    case Democracy => "democracy"
    case Establishment => "establishment"
    case Nonpartisan => "nonpartisan"
  }

  /** `Faction.value`. */
  function Value(f: Faction): (v: int)
    ensures 1 <= v <= 3
  {
    match f
    case Democracy => 1
    case Establishment => 2
    case Nonpartisan => 3
  }

  /** `@enum.unique`: no two members share a value. */
  lemma ValuesUnique(f: Faction, g: Faction)
    ensures Value(f) == Value(g) <==> f == g
  {
  }

  /** `cls[identifier]`: the enumeration's members by name. */
  const MEMBERS: map<string, Faction> :=
    map["democracy" := Democracy, "establishment" := Establishment, "nonpartisan" := Nonpartisan]

  /** `Faction.map`: the member of exactly that name, ValueError for any
      other string. */
  function Map(identifier: string): (r: Result<Faction, Error>)
    ensures r.Success? <==> identifier == "democracy" || identifier == "establishment" || identifier == "nonpartisan"
    ensures r.Success? ==> Name(r.value) == identifier
    ensures r.Failure? ==> r.error == UnknownFaction(identifier)
  {
    if identifier in MEMBERS then Success(MEMBERS[identifier])
    else Failure(UnknownFaction(identifier))
  }

  /** Every member is found under its own name. */
  lemma MapName(f: Faction)
    ensures Map(Name(f)) == Success(f)
  {
  }

  /** Distinct names never map to the same member. */
  lemma MapInjective(a: string, b: string)
    requires Map(a).Success? && Map(a) == Map(b)
    ensures a == b
  {
  }

  /** A `Constituency` object: its fields never change after `__init__`. */
  datatype Constituency<F> = Constituency(
    sort: int,
    file: string,
    caption: Caption,
    geo: Coordinates<F>,
    electoralCode: string,
    dcWinner: Faction,
    percentageDemocracy: string)

  /** `Constituency.__init__`: `int(sort)`, the media file, both floats and
      `Faction.map(dc_winner)` must all succeed, checked in that order; the
      first that fails is the error. Captions, the electoral code and the
      democracy percentage are kept as given. */
  function New<F>(args: Rows.Args, env: Env<F>): (r: Result<Constituency<F>, Error>)
    ensures r.Success? <==>
      && PyInt.ParseInt(args.sort).Some?
      && env.existsOnDisk(Paths.Join(env.searchPath, args.filename))
      && env.parseFloat(args.latitude).Some?
      && env.parseFloat(args.longitude).Some?
      && Map(args.dcWinner).Success?
    ensures r.Success? ==>
      && Some(r.value.sort) == PyInt.ParseInt(args.sort)
      && r.value.file == Paths.Join(env.searchPath, args.filename)
      && env.existsOnDisk(r.value.file)
      && r.value.caption == Caption(args.captionEn, args.captionZh)
      && Some(r.value.geo.lat) == env.parseFloat(args.latitude)
      && Some(r.value.geo.long) == env.parseFloat(args.longitude)
      && r.value.electoralCode == args.electoralCode
      && Name(r.value.dcWinner) == args.dcWinner
      && r.value.percentageDemocracy == args.percentageDemocracy
    ensures PyInt.ParseInt(args.sort).None? ==> r == Failure(InvalidInt(args.sort))
    ensures PyInt.ParseInt(args.sort).Some? && !env.existsOnDisk(Paths.Join(env.searchPath, args.filename)) ==>
      r == Failure(FileNotFound(Paths.Join(env.searchPath, args.filename)))
    ensures
      && PyInt.ParseInt(args.sort).Some? && env.existsOnDisk(Paths.Join(env.searchPath, args.filename))
      && env.parseFloat(args.latitude).None?
      ==> r == Failure(InvalidFloat(args.latitude))
    ensures
      && PyInt.ParseInt(args.sort).Some? && env.existsOnDisk(Paths.Join(env.searchPath, args.filename))
      && env.parseFloat(args.latitude).Some? && env.parseFloat(args.longitude).None?
      ==> r == Failure(InvalidFloat(args.longitude))
    ensures
      && PyInt.ParseInt(args.sort).Some? && env.existsOnDisk(Paths.Join(env.searchPath, args.filename))
      && env.parseFloat(args.latitude).Some? && env.parseFloat(args.longitude).Some?
      && Map(args.dcWinner).Failure?
      ==> r == Failure(UnknownFaction(args.dcWinner))
  {
    var sort :- Int(args.sort);
    var file :- Resolve(env, args.filename);
    var lat :- Float(env, args.latitude);
    var long :- Float(env, args.longitude);
    var dcWinner :- Map(args.dcWinner);
    Success(Constituency(
      sort, file, Caption(args.captionEn, args.captionZh), Coordinates(lat, long),
      args.electoralCode, dcWinner, args.percentageDemocracy))
  }

  /** `Constituency(**row)`. */
  function FromRow<F>(row: Rows.Row, env: Env<F>): (r: Result<Constituency<F>, Error>)
    ensures r.Success? <==> row.Keys == Rows.PARAMETERS && New(Rows.Bind(row).value, env).Success?
    ensures row.Keys == Rows.PARAMETERS ==>
      Rows.Unbind(Rows.Bind(row).value) == row && r == New(Rows.Bind(row).value, env)
    ensures row.Keys != Rows.PARAMETERS ==> r == Failure(Rows.Bind(row).error)
  {
    var args :- Rows.Bind(row);
    Rows.UnbindBind(row);
    New(args, env)
  }

  /** The camp named in the tweet: "non-partisan" for exactly the
      non-partisan winners, "pro-" and the camp's name for the others. */
  function Affiliation(f: Faction): (a: string)
    ensures a == "non-partisan" <==> f == Nonpartisan
    ensures f != Nonpartisan ==> a == "pro-" + Name(f)
  {
    if f == Nonpartisan then "non-partisan" else "pro-" + Name(f)
  }

  /** The keyword arguments of `api.update_status`. */
  datatype Status<F> = Status(status: string, lat: F, long: F)

  const ELECTION: string := " in the 2019 District Council elections."

  /** The second line of a composed status. */
  function VoteLine(f: Faction): string {
    "Voted " + Affiliation(f) + ELECTION
  }

  /** `Twitter._compose`: the electoral code before the caption text, then
      the vote line. */
  function Compose<F>(c: Constituency<F>): (s: Status<F>)
    ensures s.lat == c.geo.lat && s.long == c.geo.long
  {
    Status(c.electoralCode + ": " + Format(c.caption) + "\n" + VoteLine(c.dcWinner), c.geo.lat, c.geo.long)
  }

  /** The camp an affiliation names. */
  function AffiliationOf(a: string): Option<Faction> {
    if a == "pro-democracy" then Some(Democracy)
    else if a == "pro-establishment" then Some(Establishment)
    else if a == "non-partisan" then Some(Nonpartisan)
    else None
  }

  /** The camp a vote line names. */
  function ParseVoteLine(line: string): Option<Faction> {
    if |line| >= 6 + |ELECTION| && line[..6] == "Voted " && line[|line| - |ELECTION|..] == ELECTION then
      AffiliationOf(line[6..|line| - |ELECTION|])
    else None
  }

  /** The winner a reader finds on the last line of a status. */
  function WinnerOf(status: string): Option<Faction> {
    match Text.LastIndexOf(status, '\n')
    case None => None
    case Some(j) => ParseVoteLine(status[j + 1..])
  }

  /** The electoral code and caption a first line holds: the code runs up
      to the first colon, and ": " follows it. */
  function HeadingOf(head: string): Option<(string, Caption)> {
    match Text.IndexOf(head, ':')
    case None => None
    case Some(i) =>
      if i + 2 <= |head| && head[i + 1] == ' ' then
        match Split(head[i + 2..])
        case None => None
        case Some(caption) => Some((head[..i], caption))
      else None
  }

  /** The electoral code and caption a reader finds before the last line. */
  function Heading(status: string): Option<(string, Caption)> {
    match Text.LastIndexOf(status, '\n')
    case None => None
    case Some(j) => HeadingOf(status[..j])
  }

  /** The composed text, written out: code, caption, newline and the vote
      line naming the winning camp. */
  lemma ComposeParts<F>(c: Constituency<F>)
    ensures Compose(c).status
      == c.electoralCode + ": " + c.caption.en + ", " + c.caption.zh + "." + "\n"
         + "Voted " + Affiliation(c.dcWinner) + " in the 2019 District Council elections."
  {
    var code, en, zh, a := c.electoralCode, c.caption.en, c.caption.zh, Affiliation(c.dcWinner);
    assert Format(c.caption) == en + ", " + zh + ".";
    assert VoteLine(c.dcWinner) == "Voted " + a + ELECTION;
    SeqAssoc(code + ": ", en + ", " + zh + "." + "\n", "Voted " + a + ELECTION);
  }

  /** Concatenation regroups. */
  lemma SeqAssoc(a: string, b: string, c: string)
    ensures a + (b + c) == a + b + c
  {
  }

  /** Each affiliation names its own camp. */
  lemma AffiliationOfAffiliation(f: Faction)
    ensures AffiliationOf(Affiliation(f)) == Some(f)
  {
    match f
    case Democracy =>
    case Establishment =>
      assert Affiliation(f)[4] != "pro-democracy"[4];
    case Nonpartisan =>
      assert Affiliation(f)[0] != "pro-democracy"[0];
      assert Affiliation(f)[0] != "pro-establishment"[0];
  }

  /** The vote line is one line, and it names its camp. */
  lemma VoteLineWinner(f: Faction)
    ensures '\n' !in VoteLine(f)
    ensures ParseVoteLine(VoteLine(f)) == Some(f)
  {
    assert '\n' !in ELECTION && '\n' !in Affiliation(f);
    var a := Affiliation(f);
    var line := VoteLine(f);
    assert line[..6] == "Voted ";
    assert line[|line| - |ELECTION|..] == ELECTION;
    assert line[6..|line| - |ELECTION|] == a;
    AffiliationOfAffiliation(f);
  }

  /** The last line of a text is the part after its last newline. */
  lemma LastLine(head: string, line: string)
    requires '\n' !in line
    ensures
      var s := head + "\n" + line;
      Text.LastIndexOf(s, '\n') == Some(|head|) && s[..|head|] == head && s[|head| + 1..] == line
  {
    var s := head + "\n" + line;
    assert s == head + ['\n'] + line;
    Text.LastSeparator(head, '\n', line);
  }

  /** Whatever the captions hold, the status tells truly which camp won. */
  lemma WinnerOfCompose<F>(c: Constituency<F>)
    ensures WinnerOf(Compose(c).status) == Some(c.dcWinner)
  {
    VoteLineWinner(c.dcWinner);
    LastLine(c.electoralCode + ": " + Format(c.caption), VoteLine(c.dcWinner));
  }

  /** The first line reads back as code and caption. */
  lemma FirstLine(code: string, caption: Caption)
    requires ':' !in code && ',' !in caption.en
    ensures
      var head := code + ": " + Format(caption);
      && Text.IndexOf(head, ':') == Some(|code|)
      && |code| + 2 <= |head| && head[|code| + 1] == ' '
      && head[..|code|] == code
      && Split(head[|code| + 2..]) == Some(caption)
  {
    var head := code + ": " + Format(caption);
    assert head == code + [':'] + (" " + Format(caption));
    Text.FirstSeparator(code, ':', " " + Format(caption));
    assert head[|code| + 2..] == Format(caption);
    SplitFormat(caption);
  }

  /** The status gives back the electoral code and the caption, as long as
      the code holds no colon and the English caption no comma. */
  lemma HeadingCompose<F>(c: Constituency<F>)
    requires ':' !in c.electoralCode && ',' !in c.caption.en
    ensures Heading(Compose(c).status) == Some((c.electoralCode, c.caption))
  {
    var head := c.electoralCode + ": " + Format(c.caption);
    VoteLineWinner(c.dcWinner);
    LastLine(head, VoteLine(c.dcWinner));
    FirstLine(c.electoralCode, c.caption);
  }

  /** A request `Twitter.update` sends: the media upload, then the status
      that attaches the uploaded media (its id comes back from the upload). */
  datatype Call<F> =
    | MediaUpload(filename: string, path: string)
    | UpdateStatus(status: Status<F>)

  /** `Twitter.update`: nothing is sent in a dry run; otherwise the
      constituency's own file is uploaded and its composed status posted. */
  function Update<F>(c: Constituency<F>, dryRun: bool): (calls: seq<Call<F>>)
    ensures dryRun <==> calls == []
    ensures !dryRun ==>
      && |calls| == 2
      && calls[0] == MediaUpload(Paths.BaseName(c.file), c.file)
      && calls[1].UpdateStatus? && calls[1].status == Compose(c)
  {
    if dryRun then []
    else [MediaUpload(Paths.BaseName(c.file), c.file), UpdateStatus(Compose(c))]
  }

  /** A run that got as far as choosing a constituency: the one chosen,
      the requests sent, and the exception raised afterwards, if any. */
  datatype Outcome<F> = Outcome(chosen: Constituency<F>, calls: seq<Call<F>>, raised: Option<Error>)

  /** Building one row, as the comprehension in `main` does. */
  function Builder<F>(env: Env<F>): Rows.Row -> Result<Constituency<F>, Error> {
    row => FromRow(row, env)
  }

  /** `main` after the CSV file is read: build every row, choose one
      constituency with the given random draw, update, and log the place
      of the created status (`place` is what the service returned; a
      missing place raises AttributeError unless the run is dry). */
  function Execute<F>(rows: seq<Rows.Row>, env: Env<F>, draw: nat, dryRun: bool, place: Option<string>)
    : (r: Result<Outcome<F>, Error>)
    ensures r.Success? <==>
      |rows| > 0 && forall i :: 0 <= i < |rows| ==> FromRow(rows[i], env).Success?
    ensures r.Failure? && |rows| > 0 ==>
      exists i :: 0 <= i < |rows| && FromRow(rows[i], env) == Failure(r.error)
        && forall k :: 0 <= k < i ==> FromRow(rows[k], env).Success?
    ensures rows == [] ==> r == Failure(EmptySequence)
    ensures r.Success? ==>
      && (exists i :: 0 <= i < |rows| && FromRow(rows[i], env) == Success(r.value.chosen))
      && r.value.calls == Update(r.value.chosen, dryRun)
      && r.value.raised == (if !dryRun && place.None? then Some(MissingPlace) else None)
  {
    var constituencies :- Batch.BuildAll(rows, Builder(env));
    var c :- Batch.Choose(constituencies, draw);
    var calls := Update(c, dryRun);
    Success(Outcome(c, calls, if dryRun || place.Some? then None else Some(MissingPlace)))
  }

  /** A published status carries the chosen constituency's coordinates and
      names its winning camp, and the media goes up under the row's file
      name. */
  lemma PublishedFaithfully<F>(c: Constituency<F>, filename: string, env: Env<F>)
    requires c.file == Paths.Join(env.searchPath, filename)
    requires filename != "" && '/' !in filename
    ensures Update(c, false)[0] == MediaUpload(filename, c.file)
    ensures Update(c, false)[1].status.lat == c.geo.lat
    ensures Update(c, false)[1].status.long == c.geo.long
    ensures WinnerOf(Update(c, false)[1].status.status) == Some(c.dcWinner)
  {
    Paths.BaseNameJoin(env.searchPath, filename);
    WinnerOfCompose(c);
  }

  /** The arguments of the test module's Wan Chai constituency. */
  function WanChai(dcWinner: string): Rows.Args {
    Rows.Args("1", "001.jpg", "Wan Chai", "灣仔", "22.279722", "114.171667", "B-03", dcWinner, "57.76")
  }

  /** The test row's sort key "1" is read as the integer 1. */
  lemma SortOne()
    ensures Int("1") == Success(1)
  {
    PyInt.ParseShow(1);
    assert PyInt.DigitChar(1) == '1';
    assert PyInt.Show(1) == "1";
  }

  /** With its image present, the Wan Chai row builds, as a pro-democracy
      constituency holding exactly the row's values. */
  lemma WanChaiBuilds<F>(env: Env<F>, args: Rows.Args)
    requires args == WanChai("democracy")
    requires env.existsOnDisk(Paths.Join(env.searchPath, "001.jpg"))
    requires env.parseFloat("22.279722").Some? && env.parseFloat("114.171667").Some?
    ensures New(args, env) == Success(Constituency(
      1, Paths.Join(env.searchPath, "001.jpg"), Caption("Wan Chai", "灣仔"),
      Coordinates(env.parseFloat("22.279722").value, env.parseFloat("114.171667").value),
      "B-03", Democracy, "57.76"))
  {
    SortOne();
    assert PyInt.ParseInt(args.sort) == Some(1);
    assert Map(args.dcWinner) == Success(Democracy);
    Built(args, env, 1);
  }

  /** A row whose every step succeeds builds the record of its values. */
  lemma Built<F>(args: Rows.Args, env: Env<F>, sort: int)
    requires PyInt.ParseInt(args.sort) == Some(sort)
    requires env.existsOnDisk(Paths.Join(env.searchPath, args.filename))
    requires env.parseFloat(args.latitude).Some? && env.parseFloat(args.longitude).Some?
    requires Map(args.dcWinner).Success?
    ensures New(args, env) == Success(Constituency(
      sort, Paths.Join(env.searchPath, args.filename), Caption(args.captionEn, args.captionZh),
      Coordinates(env.parseFloat(args.latitude).value, env.parseFloat(args.longitude).value),
      args.electoralCode, Map(args.dcWinner).value, args.percentageDemocracy))
  {
  }

  /** The Wan Chai status reads back as code "B-03", caption
      "Wan Chai, 灣仔" and a pro-democracy winner. */
  lemma WanChaiStatus<F>(c: Constituency<F>)
    requires c.electoralCode == "B-03" && c.caption == Caption("Wan Chai", "灣仔")
    requires c.dcWinner == Democracy
    ensures Heading(Compose(c).status) == Some(("B-03", Caption("Wan Chai", "灣仔")))
    ensures WinnerOf(Compose(c).status) == Some(Democracy)
  {
    assert ':' !in c.electoralCode && ',' !in c.caption.en;
    HeadingCompose(c);
    WinnerOfCompose(c);
  }

  /** The constructor refuses the "yolo" winner once every earlier step
      has passed. */
  lemma YoloNew<F>(env: Env<F>)
    requires env.existsOnDisk(Paths.Join(env.searchPath, "001.jpg"))
    requires env.parseFloat("22.279722").Some? && env.parseFloat("114.171667").Some?
    ensures New(WanChai("yolo"), env) == Failure(UnknownFaction("yolo"))
  {
    SortOne();
    assert Map("yolo").Failure?;
  }

  /** The same row with "yolo" as its winner is refused with the
      unknown-camp error, even with its image present, and so is every
      batch whose earlier rows all build. */
  lemma YoloRefused<F>(env: Env<F>, rows: seq<Rows.Row>, i: nat, draw: nat, dryRun: bool, place: Option<string>)
    requires env.existsOnDisk(Paths.Join(env.searchPath, "001.jpg"))
    requires env.parseFloat("22.279722").Some? && env.parseFloat("114.171667").Some?
    requires i < |rows| && rows[i] == Rows.Unbind(WanChai("yolo"))
    ensures New(WanChai("yolo"), env) == Failure(UnknownFaction("yolo"))
    ensures Execute(rows, env, draw, dryRun, place).Failure?
    ensures (forall k :: 0 <= k < i ==> FromRow(rows[k], env).Success?) ==>
      Execute(rows, env, draw, dryRun, place) == Failure(UnknownFaction("yolo"))
  {
    YoloNew(env);
    Rows.BindUnbind(WanChai("yolo"));
    assert FromRow(rows[i], env) == Failure(UnknownFaction("yolo"));
    var r := Execute(rows, env, draw, dryRun, place);
    if forall k :: 0 <= k < i ==> FromRow(rows[k], env).Success? {
      var j :| 0 <= j < |rows| && FromRow(rows[j], env) == Failure(r.error)
        && forall k :: 0 <= k < j ==> FromRow(rows[k], env).Success?;
      assert j == i;
    }
  }
}
