/** Catalogue entries (internal/usm/app_state.go:81-104). */
module Entries {
  import opened Results

  /** An instant, in nanoseconds since Go's zero time. */
  type Time = int

  const ZERO_TIME: Time := 0

  datatype VaultEntry = VaultEntry(
    name: string,
    version: int,
    location: string,
    fingerprint: string,
    created: Time,
    modified: Time,
    lastUnlocked: Time,
    itemCount: int,
    chainCS: string)

  type Catalogue = map<string, VaultEntry>

  function Get<T>(m: map<string, T>, name: string): Option<T> {
    if name in m then Some(m[name]) else None
  }

  /** time.Time.Unix: whole seconds since 1970, rounded down. */
  function Unix(t: Time): int {
    t / 1_000_000_000 - 62_135_596_800
  }

  /** Whole seconds since midnight of 1 January 1970, which is 719162 days after the zero time, rounded down. */
  lemma UnixIs(t: Time)
    ensures var since := t - 719_162 * 24 * 60 * 60 * 1_000_000_000;
            Unix(t) * 1_000_000_000 <= since < (Unix(t) + 1) * 1_000_000_000
  {
  }
}
