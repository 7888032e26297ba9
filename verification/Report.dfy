/** What writing, checking and restoring a backup report, and what they refuse. */
module Report {
  import opened Bytes
  import opened Layout

  /** Three ordered numbers naming a build. */
  datatype Version = Version(major: U32, minor: U32, patch: U32) {
    predicate NewerThan(other: Version) {
      || major > other.major
      || (major == other.major && minor > other.minor)
      || (major == other.major && minor == other.minor && patch > other.patch)
    }
  }

  datatype Versioned = Framing | RecordCodec

  datatype Surface = PointInTimeRestore | IncrementalBackup

  datatype Error =
    | Io
    | StoreRefused
    | SyncFailed
    | Undecodable
    | NotABackup
    | Unsupported(versioned: Versioned, version: Byte)
    | WrittenByNewer(writer: Version)
    | ManyLogs(surface: Surface, logs: nat)
    | WrongBase(needs: nat, found: nat)
    | Damaged(sequence: nat)

  /** A log with the first and last position a section of it covers. */
  datatype LogSpan = LogSpan(log: LogId, from: U64, tail: U64)

  datatype Written = Written(records: nat, logs: seq<LogSpan>, writer: Version)

  datatype VerifiedLog = VerifiedLog(span: LogSpan, goodThrough: nat)

  datatype Verified = Verified(writtenBy: Version, records: nat, logs: seq<VerifiedLog>, truncated: bool)

  datatype Restored = Restored(writtenBy: Version, records: nat, logs: seq<LogSpan>, truncated: bool)

  datatype Bootstrapped =
    Bootstrapped(writtenBy: Version, records: nat, followFrom: seq<(LogId, nat)>, truncated: bool)
}
