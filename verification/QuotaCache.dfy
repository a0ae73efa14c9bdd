/** The cache of quota metrics. Records are kept under strings; the contracts speak of
    the connection, account and credential revision that the strings stand for. */
module QuotaCache {
  import opened Wrappers
  import opened PercentEncoding

  datatype Status = Available | Stale | PermissionRequired | ReadError

  /** `data` stands for the fields of a metric that the cache does not look at. */
  datatype Metric = Metric(status: Status, data: string)

  datatype Entry = Entry(metrics: seq<Metric>, expiresAt: int)

  /** Whose quota it is. */
  datatype Owner = Owner(connection: string, account: string, revision: string)

  /** A request without an account is kept under the empty account. */
  function OwnerOf(connection: string, account: Option<string>, revision: string): Owner {
    Owner(connection, if account.Some? then account.value else "", revision)
  }

  /** No account and the empty account are one owner, and no other two are. */
  lemma OwnersAgree(c: string, a: Option<string>, r: string, d: string, b: Option<string>, q: string)
    ensures OwnerOf(c, a, r) == OwnerOf(d, b, q) <==>
              c == d && r == q && (a == b || {a, b} == {None, Some("")})
  {
    assert {a, b} == {None, Some("")} ==> a in {None, Some("")} && b in {None, Some("")};
  }

  function Prefix(connection: string, account: string): string {
    Joined([connection, account]) + "|"
  }

  /** quotaCacheKey */
  function CacheKey(o: Owner): string {
    Joined([o.connection, o.account, o.revision])
  }

  lemma KeysAreInjective(o: Owner, p: Owner)
    requires CacheKey(o) == CacheKey(p)
    ensures o == p
  {
    hide Joined;
    var a, b := [o.connection, o.account, o.revision], [p.connection, p.account, p.revision];
    JoinedInjective(a, b);
    assert a[0] == b[0] && a[1] == b[1] && a[2] == b[2];
  }

  /** A key starts with the prefix of a pair exactly when it is a key of that pair. */
  lemma PrefixMeansPair(o: Owner, connection: string, account: string)
    ensures Prefix(connection, account) <= CacheKey(o) <==> o.connection == connection && o.account == account
  {
    hide Joined;
    var a, b := [connection, account], [o.connection, o.account, o.revision];
    JoinedPrefix(a, b);
    assert a < b <==> a[0] == b[0] && a[1] == b[1];
  }

  function Aged(m: Metric): Metric {
    if m.status.Available? then m.(status := Stale) else m
  }

  /** Ageing makes an available metric stale and leaves everything else as it is: what needs
      a permission or could not be read is not hidden, and ageing twice is ageing once. */
  lemma AgedExactly(m: Metric)
    ensures Aged(m).data == m.data && Aged(m).status != Available && Aged(Aged(m)) == Aged(m)
    ensures Aged(m).status == Stale <==> m.status in {Available, Stale}
    ensures m.status != Available ==> Aged(m) == m
  {
  }

  class QuotaMetricCache {
    var records: map<string, Entry>

    constructor ()
      ensures forall o: Owner :: At(o).None?
    {
      records := map[];
    }

    /** The record of an owner. */
    ghost function At(o: Owner): Option<Entry>
      reads this
    {
      if CacheKey(o) in records then Some(records[CacheKey(o)]) else None
    }

    method Set(connection: string, account: Option<string>, revision: string, metrics: seq<Metric>, expiresAt: int)
      modifies this
      ensures forall o: Owner :: At(o) ==
                if o == OwnerOf(connection, account, revision) then Some(Entry(metrics, expiresAt)) else old(At(o))
    {
      hide Joined;
      var owner := OwnerOf(connection, account, revision);
      records := records[CacheKey(owner) := Entry(metrics, expiresAt)];
      forall o: Owner | CacheKey(o) == CacheKey(owner) ensures o == owner { KeysAreInjective(o, owner); }
    }

    /** Before its expiry a record is returned as it was set; after it, available metrics are stale. */
    method Get(connection: string, account: Option<string>, revision: string, now: int) returns (r: Option<seq<Metric>>)
      ensures var e := At(OwnerOf(connection, account, revision));
              && r.Some? == e.Some?
              && (r.Some? ==> |r.value| == |e.value.metrics|)
              && (r.Some? ==> forall i | 0 <= i < |r.value| :: r.value[i].data == e.value.metrics[i].data)
              && (r.Some? ==> forall i | 0 <= i < |r.value| ::
                   r.value[i].status == if now >= e.value.expiresAt && e.value.metrics[i].status == Available
                                        then Stale else e.value.metrics[i].status)
    {
      var key := CacheKey(OwnerOf(connection, account, revision));
      if key !in records { return None; }
      var record := records[key];
      if now < record.expiresAt { return Some(record.metrics); }
      r := Some(seq(|record.metrics|, i requires 0 <= i < |record.metrics| => Aged(record.metrics[i])));
    }

    /** Removes every revision of the pair, and nothing else. */
    method Invalidate(connection: string, account: Option<string>)
      modifies this
      ensures forall o: Owner :: At(o) ==
                if o.connection == connection && o.account == OwnerOf(connection, account, "").account then None
                    else old(At(o))
    {
      hide Joined;
      var who := OwnerOf(connection, account, "").account;
      var prefix := Prefix(connection, who);
      var keys := records.Keys;
      while keys != {}
        invariant keys <= old(records).Keys
        invariant forall k :: k in records <==> k in old(records) && (k in keys || !(prefix <= k))
        invariant forall k | k in records :: records[k] == old(records)[k]
      {
        var key :| key in keys;
        if prefix <= key { records := records - {key}; }
        keys := keys - {key};
      }
      forall o: Owner ensures prefix <= CacheKey(o) <==> o.connection == connection && o.account == who {
        PrefixMeansPair(o, connection, who);
      }
    }
  }
}
