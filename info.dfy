/** `struct shell_info`: the per-command flags and file names that
    `parse_line` fills in, plus the raw wait status of the last waited-for
    child. */
module Info {

  /** The per-command part of `shell_info` as one value: what `other_cmd`
      reads when it decides how to start a child. */
  datatype Request = Request(
    background: bool,
    inputRedirect: bool,
    inputFilename: string,
    outputRedirect: bool,
    outputFilename: string)

  /** The request a freshly reset `shell_info` describes. */
  const Cleared := Request(false, false, "", false, "")

  class ShellInfo {
    var background: bool
    var exitStatus: int
    var outputRedirect: bool
    var inputRedirect: bool
    var outputFilename: string
    var inputFilename: string

    /** `struct shell_info info;` is never initialised: its `exit_status`
        starts out as whatever the stack held, given here as `status`. */
    constructor (status: int)
      ensures exitStatus == status
    {
      exitStatus := status;
    }

    function Current(): (r: Request)
      reads this
      ensures r.background == background && r.inputRedirect == inputRedirect
      ensures r.inputFilename == inputFilename && r.outputRedirect == outputRedirect
      ensures r.outputFilename == outputFilename
    {
      Request(background, inputRedirect, inputFilename, outputRedirect, outputFilename)
    }

    /** `init_shell_info`: clears the flags and empties both file names, but
        leaves `exit_status` alone, so it carries over between commands. */
    method Init()
      modifies this
      ensures Current() == Cleared
      ensures exitStatus == old(exitStatus)
    {
      background := false;
      inputRedirect := false;
      outputRedirect := false;
      inputFilename := "";
      outputFilename := "";
    }
  }
}
