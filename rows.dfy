/** One row of the CSV file, as `csv.DictReader` yields it, and its binding
    to the keyword parameters of a record's constructor (`Cls(**row)`). */
module Rows {
  import opened Wrappers
  import opened Errors

  type Row = map<string, string>

  /** The constructor's parameter names, shared by both record classes. */
  const PARAMETERS: set<string> := {
    "sort", "filename", "caption_en", "caption_zh", "latitude", "longitude",
    "electoral_code", "dc_winner", "percentage_democracy"
  }

  /** The constructor's arguments, still as the text the file holds. */
  datatype Args = Args(
    sort: string,
    filename: string,
    captionEn: string,
    captionZh: string,
    latitude: string,
    longitude: string,
    electoralCode: string,
    dcWinner: string,
    percentageDemocracy: string)

  /** The row a set of arguments comes from. */
  function Unbind(a: Args): (row: Row)
    ensures row.Keys == PARAMETERS
  {
    map[
      "sort" := a.sort, "filename" := a.filename,
      "caption_en" := a.captionEn, "caption_zh" := a.captionZh,
      "latitude" := a.latitude, "longitude" := a.longitude,
      "electoral_code" := a.electoralCode, "dc_winner" := a.dcWinner,
      "percentage_democracy" := a.percentageDemocracy]
  }

  /** `**row`: every parameter needs its column and every column its
      parameter. A column that is no parameter raises TypeError first;
      only when there is none do the parameters left without a column
      raise it. */
  function Bind(row: Row): (r: Result<Args, Error>)
    ensures r.Success? <==> row.Keys == PARAMETERS
    ensures row.Keys - PARAMETERS != {} ==> r == Failure(UnexpectedArguments(row.Keys - PARAMETERS))
    ensures row.Keys <= PARAMETERS && row.Keys != PARAMETERS ==>
      r == Failure(MissingArguments(PARAMETERS - row.Keys))
  {
    if row.Keys - PARAMETERS != {} then
      Failure(UnexpectedArguments(row.Keys - PARAMETERS))
    else if PARAMETERS - row.Keys != {} then
      Failure(MissingArguments(PARAMETERS - row.Keys))
    else
      assert row.Keys == PARAMETERS;
      Success(Args(
        row["sort"], row["filename"], row["caption_en"], row["caption_zh"],
        row["latitude"], row["longitude"], row["electoral_code"],
        row["dc_winner"], row["percentage_democracy"]))
  }

  /** Binding reads each argument from the column of its own name. */
  lemma BindUnbind(a: Args)
    ensures Bind(Unbind(a)) == Success(a)
  {
  }

  /** A row that binds is exactly the row of its arguments: no column is
      lost or altered. */
  lemma UnbindBind(row: Row)
    requires Bind(row).Success?
    ensures Unbind(Bind(row).value) == row
  {
    var back := Unbind(Bind(row).value);
    assert back.Keys == row.Keys;
    forall k | k in row
      ensures back[k] == row[k]
    {
    }
  }
}
