/** The status cache: internal/cache/redis.go. Every entry carries its own expiry instant. */
module StatusCache {
  import opened Domain

  datatype Entry = Entry(status: JobStatus, expiresAt: Time)
  type Entries = map<JobId, Entry>

  /** An entry answers strictly before its expiry instant. */
  predicate Live(entries: Entries, id: JobId, now: Time) {
    id in entries && now < entries[id].expiresAt
  }

  /** A set replaces the entry and restarts its lifetime; it is the only operation that does. */
  function Put(entries: Entries, id: JobId, status: JobStatus, now: Time, ttl: Time): Entries {
    entries[id := Entry(status, now + ttl)]
  }

  class RedisCacher {
    var entries: Entries
    const jobStatusTTL: Time

    constructor (ttl: Time)
      ensures entries == map[] && jobStatusTTL == ttl
    {
      entries := map[];
      jobStatusTTL := ttl;
    }

    method SetJobStatus(id: JobId, status: JobStatus, now: Time)
      modifies this`entries
      ensures entries == Put(old(entries), id, status, now, jobStatusTTL)
    {
      entries := entries[id := Entry(status, now + jobStatusTTL)];
    }

    /** A miss is an error; a hit neither rewrites nor prolongs the entry. */
    method GetJobStatus(id: JobId, now: Time) returns (r: Option<JobStatus>)
      ensures r.Some? <==> Live(entries, id, now)
      ensures r.Some? ==> r.value == entries[id].status
    {
      if id in entries && now < entries[id].expiresAt {
        r := Some(entries[id].status);
      } else {
        r := None;
      }
    }

    method DeleteJobStatus(id: JobId)
      modifies this`entries
      ensures id !in entries
      ensures forall other :: other != id ==> (other in entries <==> other in old(entries))
                                              && (other in entries ==> entries[other] == old(entries)[other])
    {
      entries := entries - {id};
    }
  }
}
