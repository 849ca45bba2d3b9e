/** Identity of the window that input is bound to, and the check that it still owns the foreground. */
module TargetPlatform {

  datatype TargetIdentity = TargetIdentity(hwnd: nat, pid: nat, tid: nat, identity: nat, processStartTime: nat) {
    predicate IsValid() {
      hwnd != 0 && pid != 0 && tid != 0 && processStartTime != 0
    }
  }

  const NO_TARGET: TargetIdentity := TargetIdentity(0, 0, 0, 0, 0)

  /** What the platform answers during one activity check: two live samples around one published identity. */
  datatype Focus = Focus(first: TargetIdentity, published: TargetIdentity, second: TargetIdentity)

  predicate IsExpectedTargetActive(f: Focus, expected: TargetIdentity) {
    expected.IsValid() && f.first == expected && f.published == expected && f.second == expected
  }
}
