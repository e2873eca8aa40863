/** What a record's constructor takes from outside the program: the
    SEARCH_PATH variable, the file system, and Python's `float`. */
module Builtins {
  import opened Wrappers
  import opened Errors
  import PyInt
  import Paths

  /** `F` stands for Python's float: the model only ever copies such a
      value, so `parseFloat` (the outcome of `float(text)`) is given. */
  datatype Env<F> = Env(
    searchPath: string,
    existsOnDisk: string -> bool,
    parseFloat: string -> Option<F>)

  /** `int(text)`. */
  function Int(text: string): (r: Result<int, Error>)
    ensures r.Success? <==> PyInt.ParseInt(text).Some?
    ensures r.Success? ==> Some(r.value) == PyInt.ParseInt(text)
    ensures r.Failure? ==> r.error == InvalidInt(text)
  {
    match PyInt.ParseInt(text)
    case None => Failure(InvalidInt(text))
    case Some(n) => Success(n)
  }

  /** `float(text)`. */
  function Float<F>(env: Env<F>, text: string): (r: Result<F, Error>)
    ensures r.Success? <==> env.parseFloat(text).Some?
    ensures r.Success? ==> Some(r.value) == env.parseFloat(text)
    ensures r.Failure? ==> r.error == InvalidFloat(text)
  {
    match env.parseFloat(text)
    case None => Failure(InvalidFloat(text))
    case Some(x) => Success(x)
  }

  /** `Path(search_path / filename).resolve(strict=True)`: the joined
      path, which must name an existing file. */
  function Resolve<F>(env: Env<F>, filename: string): (r: Result<string, Error>)
    ensures r.Success? <==> env.existsOnDisk(Paths.Join(env.searchPath, filename))
    ensures r.Success? ==> r.value == Paths.Join(env.searchPath, filename) && env.existsOnDisk(r.value)
    ensures r.Failure? ==> r.error == FileNotFound(Paths.Join(env.searchPath, filename))
  {
    var path := Paths.Join(env.searchPath, filename);
    if env.existsOnDisk(path) then Success(path) else Failure(FileNotFound(path))
  }

  /** A relative file name resolves to a path under the search path. */
  lemma ResolveUnderRoot<F>(env: Env<F>, filename: string)
    requires Resolve(env, filename).Success? && filename != "" && filename[0] != '/'
    ensures |env.searchPath| <= |Resolve(env, filename).value|
    ensures Resolve(env, filename).value[..|env.searchPath|] == env.searchPath
  {
    Paths.JoinParts(env.searchPath, filename);
  }
}
