# hkdc-2019 in Dafny

A model of the two scripts of hkdc-2019 that tweet Hong Kong District
Council constituencies (`src/constituencies.py`) and geographic shapes
(`src/shapes.py`): how one CSV row becomes a record, how the whole file
becomes a list or nothing, how one record is drawn, and what status text and
coordinates are sent for it. Both scripts are pure between the CSV reader
and the Twitter client, and so is the model: datatypes, functions and
lemmas.

Modules:

- `Constituencies` and `Shapes`: one per script. Each has its `Faction`
  enumeration and `Map`, the record (`Constituency`, `Shape`) and its
  constructor `New`, `FromRow` for `Cls(**row)`, `Compose`, `Update` as the
  requests it sends, and `Execute` for `main` once the file is read.
- `Rows`: a CSV row as a map from column name to text, and its binding to
  the nine keyword parameters the two constructors share.
- `Builtins`: `int`, `float` and `Path(...).resolve(strict=True)` as the
  constructors use them. What is outside the program is a parameter
  `Env<F>`: the SEARCH_PATH value, which paths exist, and how `float`
  reads a text. `F` stands for Python's float, which the model only copies.
- `PyInt`: Python's base-10 `int(text)` and `str(n)`.
- `Paths`: `root / name` and `path.name` from pathlib.
- `Batch`: the list comprehension in `main` and `random.choice`. The random
  draw is a parameter.
- `Records`: the `Caption` and `Coordinates` tuples and the caption text
  `"{en}, {zh}."`, with the function that reads it back.
- `Text`, `Wrappers`, `Errors`: character search, Option/Result, and the
  exceptions as values.

`Update` does not talk to Twitter. It returns the list of requests the
script would send: the media upload of the record's file, then the status
update with the composed text and coordinates. The media id that links the
two comes from the service and is not modelled. In the constituency script
a dry run sends nothing.

Three things the scripts do not do, and the model does not do either:

- Neither script checks the coordinates the service echoes back, and
  neither deletes a post. `main` only logs `tweet.place.full_name`. With no
  place this raises AttributeError after the status is posted. In the
  constituency script a dry run swallows that error. `Execute` records it
  as `raised`.
- `percentage_democracy` is stored as the row's text, unparsed.
- Neither constructor checks coordinate ranges or empty captions.

## Model

| member | source | states |
|---|---|---|
| `Constituencies.Map` | src/constituencies.py:34-40 | succeeds exactly for "democracy", "establishment" and "nonpartisan", returning the member of that very name; any other string is an UnknownFaction error naming it (no case folding, no default) |
| `Constituencies.MapName` | src/test.py:23-30 | every member is found under its own name |
| `Constituencies.MapInjective` | src/constituencies.py:27-40 | two identifiers that map to the same member are the same identifier |
| `Constituencies.ValuesUnique` | src/constituencies.py:27-32 | the members' values 1, 2, 3 are distinct (`@enum.unique`) and tell the members apart |
| `Constituencies.New` | src/constituencies.py:50-62 | a record exists iff `int(sort)`, the media file, both floats and `Faction.map(dc_winner)` all succeed; each of the five steps, in source order, gives its own error when it is the first to fail; captions, electoral code and democracy percentage are stored verbatim, and the winner's name is the dc_winner text |
| `Constituencies.FromRow` | src/constituencies.py:123 | `Constituency(**row)` is the constructor on the bound arguments when the row's columns are exactly the parameters, and the binding's TypeError otherwise; the row is recovered from the arguments without loss |
| `Constituencies.Affiliation` | src/constituencies.py:81-84 | the affiliation is "non-partisan" exactly when the winner is non-partisan, and "pro-" followed by the camp's name otherwise |
| `Constituencies.Compose` | src/constituencies.py:79-91 | the payload's latitude and longitude are the record's own, unchanged |
| `Constituencies.ComposeParts` | src/constituencies.py:86-88 | the status is exactly the code, ": ", the English caption, ", ", the Chinese caption, ".\n", "Voted ", the affiliation and " in the 2019 District Council elections." |
| `Constituencies.VoteLineWinner` | src/constituencies.py:88 | the vote line holds no newline, and it reads back as exactly the camp it names |
| `Constituencies.WinnerOfCompose` | src/constituencies.py:81-88 | for every record, the last line of the status names the record's winning camp |
| `Constituencies.HeadingCompose` | src/constituencies.py:86-88 | code and caption are read back from the status whenever the code holds no colon and the English caption no comma |
| `Constituencies.Update` | src/constituencies.py:93-111 | a dry run sends nothing; otherwise the record's own file is uploaded under its file name (`file.name`), then the composed status is posted |
| `Constituencies.Execute` | src/constituencies.py:121-134 | a run proceeds iff there is at least one row and every row builds; otherwise the error of the first failing row, or IndexError for no rows; the chosen record is one built from a row; the requests are `Update`'s; the error raised afterwards is AttributeError (MissingPlace) when a real run gets no place back, and there is none otherwise |
| `Constituencies.PublishedFaithfully` | src/constituencies.py:104-111 | for a non-empty file name without separators, a published status uploads the media under that file name and carries the record's coordinates and winning camp |
| `Constituencies.WanChaiBuilds` | src/test.py:43-56 | the Wan Chai test row builds into exactly its values, as a pro-democracy constituency |
| `Constituencies.WanChaiStatus` | src/constituencies.py:86-88 | the Wan Chai status reads back as "B-03", "Wan Chai, 灣仔" and pro-democracy |
| `Constituencies.YoloRefused` | src/test.py:35-38 | the Wan Chai row with winner "yolo" fails with the unknown-camp error (ValueError) naming "yolo", even with its image and coordinates valid; every batch holding it fails, and with the error of that row when the earlier rows build |
| `Shapes.Map` | src/shapes.py:37-44 | succeeds exactly for "democracy" and "establishment", with the member of that name; every other identifier is an UnknownFaction (DCWinnerError) naming it |
| `Shapes.MapName` | src/shapes.py:28-43 | each of the two members is found under its own name, and the two names differ |
| `Shapes.NonpartisanRefused` | src/shapes.py:40-44 | "nonpartisan" is refused |
| `Shapes.New` | src/shapes.py:54-65 | as for constituencies: all five steps must succeed, the first failure in source order gives its own error (DCWinnerError naming the identifier for the last), and text fields are stored verbatim |
| `Shapes.FromRow` | src/shapes.py:109 | `Shape(**row)` is the constructor on the bound arguments when the columns are exactly the parameters, and the binding's TypeError otherwise |
| `Shapes.Compose` | src/shapes.py:82-85 | the payload's latitude and longitude are the shape's own, unchanged |
| `Shapes.ComposeCaption` | src/shapes.py:84 | the status reads back as the shape's caption whenever the English part holds no comma |
| `Shapes.Update` | src/shapes.py:87-98 | the shape's own file is uploaded under its file name, then its composed status is posted, with no dry run |
| `Shapes.Execute` | src/shapes.py:107-116 | a run proceeds iff there are rows and every row builds; otherwise the first failing row's error, or IndexError for no rows; the chosen shape is built from a row; the error raised afterwards is AttributeError (MissingPlace) exactly when no place comes back, and there is none otherwise |
| `Shapes.PublishedFaithfully` | src/shapes.py:92-98 | for a non-empty file name without separators and an English caption without a comma, a published status uploads under that file name and carries the shape's coordinates and caption |
| `Builtins.Int` | src/constituencies.py:56 | `int(sort)` succeeds exactly when the text has the form of a base-10 integer literal, and gives its value; otherwise InvalidInt names the text |
| `Builtins.Float` | src/constituencies.py:59 | `float(text)` gives the parsed value, or InvalidFloat naming the text |
| `Builtins.Resolve` | src/constituencies.py:55-57 | the media path is the search path joined with the file name, and it is accepted only when it exists; otherwise FileNotFound names it |
| `Builtins.ResolveUnderRoot` | src/constituencies.py:55-57 | a non-empty relative file name that resolves gives a path under the search path |
| `PyInt.ShowNatValue` | src/constituencies.py:56 | the decimal digits of n spell n |
| `PyInt.ParseShow` | src/constituencies.py:56 | `int(str(n)) == n` for every integer n |
| `Paths.BaseNameJoin` | src/constituencies.py:104-106 | the file name of the joined path is the row's file name, for a name without separators |
| `Paths.Join` | src/constituencies.py:57 | `Path(root) / name`: the joined path is at least as long as the name and at most the root, one separator and the name; a relative name keeps the whole root |
| `Paths.JoinParts` | src/constituencies.py:57 | the name always ends the joined path; a non-empty relative name lies under the root, joined by one separator when the root does not end in one |
| `Paths.BaseName` | src/constituencies.py:105 | `file.name`: the last part of the path, holding no separator and preceded by one when it is not the whole path |
| `PyInt.ParseInt` | src/constituencies.py:56 | `int(text)` accepts only a text holding a digit, and gives a negative number only for a text holding a minus sign |
| `PyInt.Show` | src/constituencies.py:56 | `str(n)`: a leading minus sign exactly for a negative number, digits everywhere else |
| `Rows.Bind` | src/constituencies.py:50-54 | keyword binding succeeds iff the columns are exactly the nine parameters; otherwise TypeError, for the columns that are no parameter when there are any, else for the parameters that have no column |
| `Rows.BindUnbind` | src/constituencies.py:50-54 | each argument comes from the column of its own name |
| `Rows.UnbindBind` | src/constituencies.py:50-54 | a row that binds is exactly the row of its arguments |
| `Batch.BuildAll` | src/constituencies.py:123 | the list exists iff every row builds, and then holds each row's record in order; otherwise the error is that of the first failing row |
| `Batch.Choose` | src/constituencies.py:127 | an empty list raises IndexError; otherwise the result is an element of the list |
| `Batch.ChooseReachesAll` | src/constituencies.py:127 | every element can be drawn |
| `Records.Format` | src/shapes.py:84 | the caption text `"{en}, {zh}."`: the English caption, a comma and a space, the Chinese caption, and a closing full stop |
| `Records.SplitFormat` | src/shapes.py:84 | the caption text `"{en}, {zh}."` reads back as its caption when the English part holds no comma |
| `Records.FormatAmbiguous` | src/shapes.py:84 | without that condition, two different captions give the same text |

## Left out

- The Twitter client (src/constituencies.py:67-76, src/shapes.py:70-79): OAuth, the API object and its rate-limit waiting are network I/O through tweepy. `Update` gives the requests only. It does not model the media id the upload returns.
- Environment variables: SEARCH_PATH becomes `Env.searchPath`. The KeyError for a missing variable, and the API keys read in `Twitter.__init__`, are not modelled.
- `resolve(strict=True)` also makes the path absolute and follows symbolic links and `..`. The model stores the joined path and checks it against `Env.existsOnDisk`.
- pathlib's normalisation of repeated separators, `.` components and trailing separators is not modelled.
- `float(...)` and the float `repr` in `__repr__` are floating point. `float` is the `Env.parseFloat` parameter, and `__repr__` is not modelled.
- PyInt.ParseInt: does not model Unicode digits and Unicode whitespace, which `int` also accepts, nor the interpreter's limit on the digits it converts (`sys.get_int_max_str_digits`, 4300 by default in recent releases), above which `int` raises ValueError.
- `New` takes text arguments only. The tests also pass ready-made numbers (src/test.py:46-63), and that case is not modelled.
- csv.DictReader, argparse and logging are plumbing. A short or long CSV line, which DictReader fills with None or gathers under a None key, is not modelled.
- The distribution of `random.choice` is not modelled. The draw is a parameter, and the model states only that the result is an element of the list.
- `Faction.DCWinnerError` in src/shapes.py:34-35 is a class nested in an Enum. Python before 3.13 makes such a class an enum member. The model follows the evident intent: an unknown identifier raises DCWinnerError.
- Rows.Bind: the order of the row's columns is not modelled. CPython's TypeError names the first column that is no parameter; the model's error holds all of them.
- Constituencies.PublishedFaithfully and Shapes.PublishedFaithfully: the upload name is `file.name` of the resolved path. For a symbolic link that is the target's name. The model keeps the joined path, so it gives the row's file name.
- Update/Execute: the model assumes that the media file opens and that both requests succeed. `file.open("rb")` can raise first; for example an empty file name resolves to the search directory, which `open` refuses. `media_upload` and `update_status` can raise too.
