/** Mode-change classification (shared/modes.ts). */
module Modes {
  import opened Options

  datatype ChangeKind = PrefixMode | ListMode | ChannelMode

  /** One entry of a MODE message: the signed token, its argument, and the stamp the server put on it. */
  datatype ModeChange = ModeChange(mode: string, param: Option<string>, kind: Option<ChangeKind>)

  predicate Signed(mode: string) {
    mode != "" && (mode[0] == '+' || mode[0] == '-')
  }

  function ModeLetter(mode: string): string {
    if Signed(mode) then mode[1..] else mode
  }

  predicate HasParam(c: ModeChange) {
    c.param.Some? && c.param.value != ""
  }

  /** A change of a member's status. */
  predicate MemberStatus(c: ModeChange) {
    c.kind == Some(PrefixMode) && HasParam(c)
  }

  /** A MODE row is churn when it carries changes and every one of them is a member's status. */
  predicate IsChurnMode(modes: Option<seq<ModeChange>>) {
    modes.Some? && |modes.value| > 0 && forall i | 0 <= i < |modes.value| :: MemberStatus(modes.value[i])
  }
}
