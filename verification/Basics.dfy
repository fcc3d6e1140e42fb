/** Small notions shared by the other modules. */
module Basics {
  datatype Option<+T> = None | Some(value: T)

  /** Lines with a newline between each two. */
  function JoinLines(lines: seq<string>): string {
    if lines == [] then "" else if |lines| == 1 then lines[0] else lines[0] + "\n" + JoinLines(lines[1..])
  }
}
