/** The finding record, pkg/compliancekit/finding.go, resource.go, severity.go
    and status.go, as far as the modelled components read it. */
module Findings {
  import opened Seqs

  /** `Other` is any string that is none of the four named statuses. */
  datatype Status = Pass | Fail | Error | Skip | Other(name: string) {
    predicate IsActionable() {
      this == Fail || this == Error
    }

    function Text(): string {
      match this
      case Pass => "pass"
      case Fail => "fail"
      case Error => "error"
      case Skip => "skip"
      case Other(name) => name
    }
  }

  /** An ordered integer; the named levels are 0 to 5. */
  type Severity = int

  const UNKNOWN: Severity := 0
  const INFO: Severity := 1
  const LOW: Severity := 2
  const MEDIUM: Severity := 3
  const HIGH: Severity := 4
  const CRITICAL: Severity := 5

  /** Severity.String */
  function SeverityName(s: Severity): string {
    if s == INFO then "info" else if s == LOW then "low" else if s == MEDIUM then "medium"
    else if s == HIGH then "high" else if s == CRITICAL then "critical" else "unknown"
  }

  datatype ResourceRef = ResourceRef(id: string, typ: string, name: string, provider: string, region: string, accountID: string)

  datatype Vulnerability = Vulnerability(id: string, image: string)

  /** `fingerprint` is what Finding.Fingerprint returns for the finding; the
      proofs assume nothing about how it is computed. */
  datatype Finding = Finding(
    checkID: string,
    status: Status,
    severity: Severity,
    resource: ResourceRef,
    message: string,
    tags: seq<string>,
    vulnerability: Option<Vulnerability>,
    fingerprint: string)

  function Fingerprint(f: Finding): string {
    f.fingerprint
  }
}
