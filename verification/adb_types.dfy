/**
 * The values that flow between the adb client's operations: what one run of
 * the adb tool hands back, the errors the client returns, and the port
 * forward record.
 */
module AdbTypes {
  import opened Wrappers

  /** The errors the client returns. `CommandError` carries the message of an
      error from running adb that the client passes on as it is;
      `IndexOutOfRange` stands for the Go runtime panic that slicing a too-short
      field causes. */
  datatype Error =
    | CommandError(message: string)
    | NotInstalled
    | LocalPortMalformed
    | DevicePortMalformed
    | IndexOutOfRange
    | StartFailed

  datatype Result<+T> = Ok(value: T) | Err(error: Error)

  /** What one `adb ...` run produced: its standard output and, when the run
      failed, the text of the error (for a non-zero exit Go's text reads
      "exit status N"). */
  datatype Cmd = Cmd(stdout: string, failure: Option<string>)

  /** One `adb forward --list` entry. */
  datatype Forward = Forward(serial: string, localPort: int, devicePort: int)

  /** The outcome of one process-id probe (GetPids). */
  type PidProbe = Result<seq<string>>
}
