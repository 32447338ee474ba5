/** The two `path` functions the tool uses, on plain strings. */
module Paths {

  /** path.join of a directory and one more segment. */
  function Join(dir: string, name: string): string {
    dir + "/" + name
  }

  /** path.resolve of one argument against the working directory `cwd`:
      an absolute argument is kept, an empty one names `cwd` itself. */
  function Resolve(cwd: string, p: string): string {
    if p == "" then cwd
    else if p[0] == '/' then p
    else Join(cwd, p)
  }
}
