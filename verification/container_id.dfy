/**
 * `get_container_id`: the short id the autoscaler puts in its log lines,
 * taken from `/proc/self/cgroup` when a Docker cgroup line is there, and
 * from the host name otherwise.
 */
module ContainerIdentity {
  import opened Wrappers
  import opened PyText

  const FullIdLength: nat := 64
  const ShortIdLength: nat := 12
  const Unknown: string := "unknown"

  /** What `line.strip().split('/')[-1]` gives for a cgroup line. */
  function CgroupSegment(line: string): string
  {
    LastSegment(Strip(line), '/')
  }

  /** A cgroup line the first method accepts: it mentions docker and ends in a full 64-character id. */
  predicate IsDockerIdLine(line: string)
  {
    Contains(line, "docker") && |CgroupSegment(line)| == FullIdLength
  }

  ghost predicate HasDockerIdLine(cgroup: Option<seq<string>>)
  {
    cgroup.Some? && exists k :: 0 <= k < |cgroup.value| && IsDockerIdLine(cgroup.value[k])
  }

  /** `k` is the first accepted line. */
  ghost predicate FirstDockerIdLine(lines: seq<string>, k: int)
  {
    0 <= k < |lines| && IsDockerIdLine(lines[k]) && forall j :: 0 <= j < k ==> !IsDockerIdLine(lines[j])
  }

  /** `socket.gethostname()[:12] or "unknown"`. */
  function HostnameFallback(hostname: string): string
  {
    if Take(hostname, ShortIdLength) != [] then Take(hostname, ShortIdLength) else Unknown
  }

  /**
   * `cgroup` is the file's lines, or `None` when it cannot be opened (the
   * `except` then skips straight to the fallback). The result is the first
   * accepted line's id cut to 12 characters; otherwise the two host-name
   * tests only ever return what the fallback returns as well.
   */
  method GetContainerId(cgroup: Option<seq<string>>, hostname: string) returns (id: string)
    ensures HasDockerIdLine(cgroup) ==>
      exists k :: FirstDockerIdLine(cgroup.value, k) && id == CgroupSegment(cgroup.value[k])[..ShortIdLength]
    ensures !HasDockerIdLine(cgroup) ==> id == HostnameFallback(hostname)
    ensures 0 < |id| <= ShortIdLength
  {
    if cgroup.Some? {
      var lines := cgroup.value;
      for k := 0 to |lines|
        invariant forall j :: 0 <= j < k ==> !IsDockerIdLine(lines[j])
      {
        if Contains(lines[k], "docker") {
          var segment := CgroupSegment(lines[k]);
          if |segment| == FullIdLength {
            assert FirstDockerIdLine(lines, k);
            return segment[..ShortIdLength];
          }
        }
      }
      assert !HasDockerIdLine(cgroup);
      if |hostname| == ShortIdLength {
        assert hostname == HostnameFallback(hostname);
        return hostname;
      }
      if |hostname| > 8 && IsAlnum(RemoveAll(RemoveAll(hostname, '-'), '_')) {
        assert |Take(hostname, ShortIdLength)| > 0;
        return Take(hostname, ShortIdLength);
      }
    }
    id := HostnameFallback(hostname);
  }
}
