/** The exceptions the two scripts can raise before or while publishing. */
module Errors {

  datatype Error =
      /** TypeError from `Cls(**row)` for a column that is no parameter:
          the columns of that kind (the message names the first of them). */
    | UnexpectedArguments(names: set<string>)
      /** TypeError from `Cls(**row)` when every column is a parameter but
          some parameters have no column: those parameters. */
    | MissingArguments(names: set<string>)
      /** ValueError from `int(sort)`. */
    | InvalidInt(text: string)
      /** FileNotFoundError from `Path(...).resolve(strict=True)`. */
    | FileNotFound(path: string)
      /** ValueError from `float(latitude)` or `float(longitude)`. */
    | InvalidFloat(text: string)
      /** ValueError (constituencies) or Faction.DCWinnerError (shapes)
          from `Faction.map`. */
    | UnknownFaction(identifier: string)
      /** IndexError from `random.choice` on an empty list. */
    | EmptySequence
      /** AttributeError from `tweet.place.full_name` when the created
          status carries no place. */
    | MissingPlace
}
