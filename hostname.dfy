/** The short hostname reported in every put line, and the process-wide
    cache that remembers it (opentsdb.go, getShortHostname). */
module Hostname {
  import opened Text

  /** The host name cut at its first '.', unless that '.' is its first
      character (or there is none), in which case the name is kept whole. */
  function ShortName(host: string): (r: string)
    ensures r <= host
    ensures r == "" <==> host == ""
    ensures '.' !in host ==> r == host
    ensures host != "" && host[0] == '.' ==> r == host
    ensures host != "" && host[0] != '.' && '.' in host ==>
              |r| < |host| && host[|r|] == '.' && '.' !in r
  {
    var index := IndexOf(host, '.');
    if index > 0 then host[..index] else host
  }

  /** Cutting an already short name changes nothing. */
  lemma ShortNameIdempotent(host: string)
    ensures ShortName(ShortName(host)) == ShortName(host)
  {
    var r := ShortName(host);
    if host != "" && host[0] != '.' && '.' in host {
      assert r[0] == host[0];
    }
  }

  /** What one getShortHostname call returns (and leaves in the cache),
      given the cache before the call and what the OS reports as hostname:
      the cache is consulted first and recomputed only while empty. */
  function CachedHost(cache: string, osHostname: string): string
  {
    if cache == "" then ShortName(osHostname) else cache
  }

  /** The cache after a series of calls, one per reported OS hostname. */
  function CacheAfter(cache: string, osHostnames: seq<string>): string
    decreases |osHostnames|
  {
    if osHostnames == [] then cache
    else CacheAfter(CachedHost(cache, osHostnames[0]), osHostnames[1..])
  }

  /** Once the cache holds a name, no later call changes it. */
  lemma {:induction false} CacheWriteOnce(cache: string, osHostnames: seq<string>)
    requires cache != ""
    ensures CacheAfter(cache, osHostnames) == cache
  {
    if osHostnames != [] {
      CacheWriteOnce(cache, osHostnames[1..]);
    }
  }

  /** While the OS reports "" as its hostname, the cache stays empty. */
  lemma {:induction false} CacheStaysEmpty(osHostnames: seq<string>)
    requires forall j :: 0 <= j < |osHostnames| ==> osHostnames[j] == ""
    ensures CacheAfter("", osHostnames) == ""
  {
    if osHostnames != [] {
      CacheStaysEmpty(osHostnames[1..]);
    }
  }

  /** From an empty cache, the first non-empty OS hostname fixes the cache
      for good. */
  lemma {:induction false} CacheFirstNonEmpty(osHostnames: seq<string>, k: nat)
    requires k < |osHostnames| && osHostnames[k] != ""
    requires forall j :: 0 <= j < k ==> osHostnames[j] == ""
    ensures CacheAfter("", osHostnames) == ShortName(osHostnames[k])
  {
    if k == 0 {
      CacheWriteOnce(ShortName(osHostnames[0]), osHostnames[1..]);
    } else {
      CacheFirstNonEmpty(osHostnames[1..], k - 1);
    }
  }
}
