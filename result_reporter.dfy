/**
 * Result Reporter: turns the outcome of the one transfer into the message the
 * operator sees.
 */
module ResultReporter {
  import opened XuTypes
  import opened Trace
  import opened TransferExecutor

  /**
   * The text "%s" prints from the version buffer: its bytes up to, not including,
   * the first zero byte (the whole buffer when it holds no zero).
   */
  function CText(data: seq<byte>): (text: seq<byte>)
    ensures text <= data
    ensures 0 !in text
    ensures |text| < |data| ==> data[|text|] == 0
  {
    if data == [] || data[0] == 0 then [] else [data[0]] + CText(data[1..])
  }

  /** The message after the version read returned `ret` and filled `data`. */
  function ReportVersion(ret: int, data: VersionBuffer): Event
  {
    if Succeeded(ret, VERSION_LENGTH) then VersionShown(CText(data)) else VersionFailed(ret)
  }

  /** The message after the SET for `token` returned `ret`. */
  function ReportCommand(token: Arg, ret: int): Event
  {
    if Succeeded(ret, COMMAND_WORD_LENGTH) then CommandSucceeded(token) else CommandFailed(token, ret)
  }

  /**
   * Only the exact byte count is reported as success: 60 bytes for the version read,
   * 4 for a command word. A short, long or negative return gives the failure message
   * with that return value.
   */
  lemma OnlyExactCountSucceeds(ret: int, data: VersionBuffer, token: Arg)
    ensures ReportVersion(ret, data).VersionShown? <==> ret == 60
    ensures ReportVersion(ret, data).VersionFailed? <==> ret != 60
    ensures ReportVersion(ret, data).VersionFailed? ==> ReportVersion(ret, data).err == ret
    ensures ReportCommand(token, ret).CommandSucceeded? <==> ret == 4
    ensures ReportCommand(token, ret).CommandFailed? <==> ret != 4
    ensures ReportCommand(token, ret).CommandFailed? ==> ReportCommand(token, ret).err == ret
  {
  }

  /** The text shown is the zero-terminated prefix: no other prefix has the three properties. */
  lemma CTextUnique(data: seq<byte>, text: seq<byte>)
    requires text <= data && 0 !in text
    requires |text| < |data| ==> data[|text|] == 0
    ensures text == CText(data)
  {
  }
}
