/** `AdminLogger.log_action`: one line per privileged action, appended to the
    admin log file. The timestamp text, the users table and the outcome of the
    file write are inputs. */
module AuditLog {
  import opened Common
  import opened Text

  const TargetTag: string := " | Target: "
  const DetailsTag: string := " | Details: "

  /** How the admin is named in the line: `@handle` when the stored row has a
      non-empty handle, `ID:<id>` otherwise. */
  function AdminName(adminId: int, row: Option<UserRow>): (n: string)
    ensures |n| > 0
    ensures n[0] == '@' <==> row.Some? && NonEmpty(row.value.username)
    ensures n[0] == '@' ==> n[1..] == row.value.username.value
    ensures n[0] != '@' ==> |n| > 3 && n[..3] == "ID:" && n[3..] == IntToDecimal(adminId)
  {
    if row.Some? && NonEmpty(row.value.username) then "@" + row.value.username.value
    else "ID:" + IntToDecimal(adminId)
  }

  function Header(ts: string, name: string, action: string): string {
    "[" + ts + "] Admin: " + name + " | Action: " + action
  }

  /** A tagged segment, left out entirely when its value is empty. */
  function Segment(tag: string, value: string): string {
    if value == "" then "" else tag + value
  }

  /** The format of an audit line: the header, the target segment, the details
      segment. */
  function AuditLine(ts: string, name: string, action: string, target: string, details: string): string {
    Header(ts, name, action) + Segment(TargetTag, target) + Segment(DetailsTag, details)
  }

  /** Where each part sits in an audit line: the header is a prefix, a non-empty
      target follows it at once, non-empty details end the line, and nothing
      else is in it. */
  lemma AuditLineLayout(ts: string, name: string, action: string, target: string, details: string)
    ensures var line, h := AuditLine(ts, name, action, target, details), Header(ts, name, action);
            && |line| == |h| + |Segment(TargetTag, target)| + |Segment(DetailsTag, details)|
            && line[..|h|] == h
            && (target != "" ==> line[|h|..|h| + |TargetTag| + |target|] == TargetTag + target)
            && (details != "" ==> line[|line| - |DetailsTag| - |details|..] == DetailsTag + details)
            && (target == "" && details == "" ==> line == h)
  {
  }

  /** `log_action` builds its line by successive `+=`: the header, then the
      target segment when the target is non-empty, then the details segment
      when the details are non-empty. */
  method BuildLine(ts: string, name: string, action: string, target: string, details: string)
    returns (line: string)
    ensures line == AuditLine(ts, name, action, target, details)
  {
    line := "[" + ts + "] Admin: " + name + " | Action: " + action;
    if target != "" {
      line := line + " | Target: " + target;
    }
    if details != "" {
      line := line + " | Details: " + details;
    }
  }

  /** What one `log_action` call adds to the file: the line and a newline, or
      nothing when the write fails. */
  function Appended(adminId: int, action: string, target: string, details: string,
                    ts: string, users: map<int, UserRow>, writeSucceeds: bool): string {
    if writeSucceeds
    then AuditLine(ts, AdminName(adminId, LookupUser(users, adminId)), action, target, details) + "\n"
    else ""
  }

  class AdminLogger {
    /** The contents of the admin log file. */
    var contents: string

    constructor (existing: string)
      ensures contents == existing
    {
      contents := existing;
    }

    /** `log_action(admin_id, action, target, details)` at time `ts`. A failed
        write is swallowed: the file is then unchanged. */
    method LogAction(adminId: int, action: string, target: string, details: string,
                     ts: string, users: map<int, UserRow>, writeSucceeds: bool)
      modifies this
      ensures contents == old(contents) + Appended(adminId, action, target, details, ts, users, writeSucceeds)
    {
      var name := AdminName(adminId, LookupUser(users, adminId));
      var line := BuildLine(ts, name, action, target, details);
      if writeSucceeds {
        contents := contents + line + "\n";
      }
    }
  }
}
