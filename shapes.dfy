/** src/shapes.py: the older script, which tweets geographic shapes with a
    caption only and knows two camps. */
module Shapes {
  import opened Wrappers
  import opened Errors
  import opened Records
  import opened Builtins
  import Rows
  import PyInt
  import Paths
  import Batch

  /** The political camps (`enum.Enum`): no non-partisan member here. */
  datatype Faction = Democracy | Establishment

  /** `Faction.name`. */
  function Name(f: Faction): string {
    match f
    case Democracy => "democracy"
    case Establishment => "establishment"
  }

  /** `Faction.map`: an explicit test for each name; every other
      identifier, "nonpartisan" among them, raises DCWinnerError. */
  function Map(identifier: string): (r: Result<Faction, Error>)
    ensures r.Success? <==> identifier == "democracy" || identifier == "establishment"
    ensures r.Success? ==> Name(r.value) == identifier
    ensures r.Failure? ==> r.error == UnknownFaction(identifier)
  {
    if identifier == "democracy" then Success(Democracy)
    else if identifier == "establishment" then Success(Establishment)
    else Failure(UnknownFaction(identifier))
  }

  /** Every member is found under its own name, and the two names differ. */
  lemma MapName(f: Faction)
    ensures Map(Name(f)) == Success(f)
    ensures Name(f) != Name(if f == Democracy then Establishment else Democracy)
  {
    assert Name(Democracy)[0] != Name(Establishment)[0];
  }

  /** The later script's third camp is unknown to this one. */
  lemma NonpartisanRefused()
    ensures Map("nonpartisan") == Failure(UnknownFaction("nonpartisan"))
  {
  }

  /** A `Shape` object: its fields never change after `__init__`. */
  datatype Shape<F> = Shape(
    sort: int,
    file: string,
    caption: Caption,
    geo: Coordinates<F>,
    electoralCode: string,
    dcWinner: Faction,
    percentageDemocracy: string)

  /** `Shape.__init__`: `int(sort)`, the media file, both floats and
      `Faction.map(dc_winner)` must all succeed, checked in that order; the
      first that fails is the error. Captions, the electoral code and the
      democracy percentage are kept as given. */
  function New<F>(args: Rows.Args, env: Env<F>): (r: Result<Shape<F>, Error>)
    ensures r.Success? <==>
      && PyInt.ParseInt(args.sort).Some?
      && env.existsOnDisk(Paths.Join(env.searchPath, args.filename))
      && env.parseFloat(args.latitude).Some?
      && env.parseFloat(args.longitude).Some?
      && Map(args.dcWinner).Success?
    ensures r.Success? ==>
      && Some(r.value.sort) == PyInt.ParseInt(args.sort)
      && r.value.file == Paths.Join(env.searchPath, args.filename)
      && env.existsOnDisk(r.value.file)
      && r.value.caption == Caption(args.captionEn, args.captionZh)
      && Some(r.value.geo.lat) == env.parseFloat(args.latitude)
      && Some(r.value.geo.long) == env.parseFloat(args.longitude)
      && r.value.electoralCode == args.electoralCode
      && Name(r.value.dcWinner) == args.dcWinner
      && r.value.percentageDemocracy == args.percentageDemocracy
    ensures PyInt.ParseInt(args.sort).None? ==> r == Failure(InvalidInt(args.sort))
    ensures PyInt.ParseInt(args.sort).Some? && !env.existsOnDisk(Paths.Join(env.searchPath, args.filename)) ==>
      r == Failure(FileNotFound(Paths.Join(env.searchPath, args.filename)))
    ensures
      && PyInt.ParseInt(args.sort).Some? && env.existsOnDisk(Paths.Join(env.searchPath, args.filename))
      && env.parseFloat(args.latitude).None?
      ==> r == Failure(InvalidFloat(args.latitude))
    ensures
      && PyInt.ParseInt(args.sort).Some? && env.existsOnDisk(Paths.Join(env.searchPath, args.filename))
      && env.parseFloat(args.latitude).Some? && env.parseFloat(args.longitude).None?
      ==> r == Failure(InvalidFloat(args.longitude))
    ensures
      && PyInt.ParseInt(args.sort).Some? && env.existsOnDisk(Paths.Join(env.searchPath, args.filename))
      && env.parseFloat(args.latitude).Some? && env.parseFloat(args.longitude).Some?
      && Map(args.dcWinner).Failure?
      ==> r == Failure(UnknownFaction(args.dcWinner))
  {
    var sort :- Int(args.sort);
    var file :- Resolve(env, args.filename);
    var lat :- Float(env, args.latitude);
    var long :- Float(env, args.longitude);
    var dcWinner :- Map(args.dcWinner);
    Success(Shape(
      sort, file, Caption(args.captionEn, args.captionZh), Coordinates(lat, long),
      args.electoralCode, dcWinner, args.percentageDemocracy))
  }

  /** `Shape(**row)`. */
  function FromRow<F>(row: Rows.Row, env: Env<F>): (r: Result<Shape<F>, Error>)
    ensures r.Success? <==> row.Keys == Rows.PARAMETERS && New(Rows.Bind(row).value, env).Success?
    ensures row.Keys == Rows.PARAMETERS ==>
      Rows.Unbind(Rows.Bind(row).value) == row && r == New(Rows.Bind(row).value, env)
    ensures row.Keys != Rows.PARAMETERS ==> r == Failure(Rows.Bind(row).error)
  {
    var args :- Rows.Bind(row);
    Rows.UnbindBind(row);
    New(args, env)
  }

  /** The keyword arguments of `api.update_status`. */
  datatype Status<F> = Status(status: string, lat: F, long: F)

  /** `Twitter._compose`: the caption text and the shape's coordinates. */
  function Compose<F>(shape: Shape<F>): (s: Status<F>)
    ensures s.lat == shape.geo.lat && s.long == shape.geo.long
  {
    Status(Format(shape.caption), shape.geo.lat, shape.geo.long)
  }

  /** The status reads back as the shape's caption, as long as its English
      part holds no comma. */
  lemma ComposeCaption<F>(shape: Shape<F>)
    requires ',' !in shape.caption.en
    ensures Split(Compose(shape).status) == Some(shape.caption)
  {
    SplitFormat(shape.caption);
  }

  /** A request `Twitter.update` sends: the media upload, then the status
      that attaches the uploaded media (its id comes back from the upload). */
  datatype Call<F> =
    | MediaUpload(filename: string, path: string)
    | UpdateStatus(status: Status<F>)

  /** `Twitter.update`: the shape's own file is uploaded and its composed
      status posted; this script has no dry run. */
  function Update<F>(shape: Shape<F>): (calls: seq<Call<F>>)
    ensures |calls| == 2
    ensures calls[0] == MediaUpload(Paths.BaseName(shape.file), shape.file)
    ensures calls[1].UpdateStatus? && calls[1].status == Compose(shape)
  {
    [MediaUpload(Paths.BaseName(shape.file), shape.file), UpdateStatus(Compose(shape))]
  }

  /** A run that got as far as choosing a shape: the one chosen, the
      requests sent, and the exception raised afterwards, if any. */
  datatype Outcome<F> = Outcome(chosen: Shape<F>, calls: seq<Call<F>>, raised: Option<Error>)

  /** Building one row, as the comprehension in `main` does. */
  function Builder<F>(env: Env<F>): Rows.Row -> Result<Shape<F>, Error> {
    row => FromRow(row, env)
  }

  /** `main` after the CSV file is read: build every row, choose one shape
      with the given random draw, update, and log the place of the created
      status (a missing place raises AttributeError). */
  function Execute<F>(rows: seq<Rows.Row>, env: Env<F>, draw: nat, place: Option<string>)
    : (r: Result<Outcome<F>, Error>)
    ensures r.Success? <==>
      |rows| > 0 && forall i :: 0 <= i < |rows| ==> FromRow(rows[i], env).Success?
    ensures r.Failure? && |rows| > 0 ==>
      exists i :: 0 <= i < |rows| && FromRow(rows[i], env) == Failure(r.error)
        && forall k :: 0 <= k < i ==> FromRow(rows[k], env).Success?
    ensures rows == [] ==> r == Failure(EmptySequence)
    ensures r.Success? ==>
      && (exists i :: 0 <= i < |rows| && FromRow(rows[i], env) == Success(r.value.chosen))
      && r.value.calls == Update(r.value.chosen)
      && r.value.raised == (if place.None? then Some(MissingPlace) else None)
  {
    var shapes :- Batch.BuildAll(rows, Builder(env));
    var shape :- Batch.Choose(shapes, draw);
    var calls := Update(shape);
    Success(Outcome(shape, calls, if place.Some? then None else Some(MissingPlace)))
  }

  /** A published status carries the chosen shape's coordinates and
      caption, and the media goes up under the row's file name. */
  lemma PublishedFaithfully<F>(shape: Shape<F>, filename: string, env: Env<F>)
    requires shape.file == Paths.Join(env.searchPath, filename)
    requires filename != "" && '/' !in filename && ',' !in shape.caption.en
    ensures Update(shape)[0] == MediaUpload(filename, shape.file)
    ensures Update(shape)[1].status.lat == shape.geo.lat
    ensures Update(shape)[1].status.long == shape.geo.long
    ensures Split(Update(shape)[1].status.status) == Some(shape.caption)
  {
    Paths.BaseNameJoin(env.searchPath, filename);
    ComposeCaption(shape);
  }
}
