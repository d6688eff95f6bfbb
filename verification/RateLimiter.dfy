// The limiter itself: stamp slices compacted in place and a map of entries that the cleaner prunes.
module RateLimiter {
  import opened RateWindow

  // One address's entry: a slice, that is the first len cells of an array that may be larger.
  class IpEntry {
    var data: array<int>
    var len: nat
    ghost const ip: string

    ghost predicate Valid()
      reads this
    {
      len <= data.Length
    }

    ghost function Slice(): (s: seq<int>)
      reads this, data
      requires Valid()
      ensures |s| == len
    {
      data[..len]
    }

    ghost predicate Shows(ip: string, stamps: seq<int>)
      reads this, data
    {
      this.ip == ip && Valid() && Slice() == stamps
    }

    constructor (ghost ip: string)
      ensures Valid() && Slice() == [] && this.ip == ip && fresh(data)
    {
      this.ip, len, data := ip, 0, new int[0];
    }

    // valid := timestamps[:0]; append what is still in the window; timestamps = valid. The compaction overwrites
    // the front of the very array it is reading.
    method Prune(cutoff: int)
      requires Valid()
      modifies this`len, data
      ensures Valid() && Slice() == After(old(Slice()), cutoff)
    {
      ghost var before := data[..len];
      var kept := 0;
      for i := 0 to len
        invariant len == old(len) && Compacted(data[..len], before, i, kept, cutoff)
      {
        ghost var cells := data[..len];
        CompactStep(cells, before, i, kept, cutoff);
        var t := data[i];
        assert t == cells[i];
        if t > cutoff {
          data[kept] := t;
          assert data[..len] == cells[kept := t];
          kept := kept + 1;
        }
      }
      assert before[..len] == before;
      assert data[..kept] == data[..len][..kept];
      len := kept;
    }

    // The first half of append: move to a larger array if there is no room.
    method Reserve()
      requires Valid()
      modifies this`data
      ensures Valid() && len < data.Length && Slice() == old(Slice())
      ensures data == old(data) || fresh(data)
    {
      if len == data.Length {
        var larger := new int[2 * len + 1];
        for i := 0 to len
          invariant len == old(len) && data == old(data) && larger[..i] == data[..i] && data[..len] == old(data[..len])
        {
          larger[i] := data[i];
        }
        data := larger;
      }
    }

    // The second: one more stamp behind the others.
    method Put(t: int)
      requires Valid() && len < data.Length
      modifies this`len, data
      ensures Valid() && Slice() == old(Slice()) + [t]
    {
      ghost var before := data[..len];
      data[len] := t;
      len := len + 1;
      assert data[..len] == before + [t];
    }
  }

  // The first i stamps have been dealt with: those to keep stand in the first kept cells, the rest is untouched.
  ghost predicate Compacted(cells: seq<int>, before: seq<int>, i: nat, kept: nat, cutoff: int) {
    && kept <= i <= |before| == |cells|
    && cells[..kept] == After(before[..i], cutoff) && cells[i..] == before[i..]
  }

  lemma CompactStep(cells: seq<int>, before: seq<int>, i: nat, kept: nat, cutoff: int)
    requires i < |before| && Compacted(cells, before, i, kept, cutoff)
    ensures if cells[i] > cutoff then Compacted(cells[kept := cells[i]], before, i + 1, kept + 1, cutoff)
            else Compacted(cells, before, i + 1, kept, cutoff)
  {
    assert cells[i] == cells[i..][0] == before[i..][0] == before[i];
    assert cells[i + 1..] == cells[i..][1..] == before[i..][1..] == before[i + 1..];
    assert before[..i + 1] == before[..i] + [before[i]];
    AfterSnoc(before[..i], before[i], cutoff);
    var next := cells[kept := cells[i]];
    assert next[..kept + 1] == cells[..kept] + [cells[i]];
    assert next[i + 1..] == cells[i + 1..];
  }

  class Limiter {
    var entries: map<string, IpEntry>
    ghost var Contents: Table  // the stored stamps of each address
    ghost var Owner: map<array<int>, string>
    ghost var Repr: set<object>

    // The entry is the one made for its own address, and its array is no other entry's.
    ghost predicate EntryOk(ip: string)
      reads this, Repr
      requires ip in entries
    {
      var e := entries[ip];
      && e in Repr && e.data in Repr && e.data in Owner && Owner[e.data] == ip
      && ip in Contents && e.Shows(ip, Contents[ip])
    }

    ghost predicate Valid()
      reads this, Repr
    {
      && this !in Repr
      && Contents.Keys == entries.Keys
      && forall ip :: ip in entries ==> EntryOk(ip)
    }

    constructor ()
      ensures Valid() && Contents == map[] && Repr == {}
    {
      entries, Contents, Owner, Repr := map[], map[], map[], {};
    }

    // No other address's entry is, or uses, what this one uses.
    lemma Apart(ip: string)
      requires Valid() && ip in entries
      ensures forall other :: other in entries && other != ip ==>
        entries[other] != entries[ip] && entries[other].data != entries[ip].data
    {
      forall other | other in entries && other != ip
        ensures entries[other] != entries[ip] && entries[other].data != entries[ip].data
      {
        assert EntryOk(other) && EntryOk(ip);
      }
    }

    // len(entry.timestamps) and entry.timestamps[0]
    method Count(ip: string) returns (n: nat)
      requires Valid() && ip in entries
      ensures ip in Contents && n == |Contents[ip]|
    {
      assert EntryOk(ip);
      n := entries[ip].len;
    }

    method Oldest(ip: string) returns (t: int)
      requires Valid() && ip in entries && ip in Contents && Contents[ip] != []
      ensures t == Contents[ip][0]
    {
      assert EntryOk(ip);
      t := entries[ip].data[0];
      assert t == entries[ip].Slice()[0];
    }

    method AddEntry(ip: string)
      requires Valid() && ip !in entries
      modifies this
      ensures Valid() && fresh(Repr - old(Repr)) && old(Repr) <= Repr
      ensures Contents == old(Contents)[ip := []] && ip in entries
    {
      var added := new IpEntry(ip);
      entries := entries[ip := added];
      Repr := Repr + {added, added.data};
      Owner := Owner[added.data := ip];
      Contents := Contents[ip := []];
      forall other | other in entries ensures EntryOk(other) {
        if other != ip {
          assert old(EntryOk(other));
        }
      }
    }

    method PruneEntry(ip: string, cutoff: int)
      requires Valid() && ip in entries
      modifies this`Contents, Repr
      ensures Valid() && Contents == old(Contents)[ip := After(old(Contents)[ip], cutoff)]
    {
      entries[ip].Prune(cutoff);
      Contents := Contents[ip := entries[ip].Slice()];
    }

    method ReserveIn(ip: string)
      requires Valid() && ip in entries
      modifies this`Owner, this`Repr, Repr
      ensures Valid() && fresh(Repr - old(Repr)) && entries[ip].len < entries[ip].data.Length
    {
      var entry := entries[ip];
      Apart(ip);
      entry.Reserve();
      Repr := Repr + {entry.data};
      Owner := Owner[entry.data := ip];
      forall other | other in entries ensures EntryOk(other) {
        if other != ip {
          assert old(EntryOk(other));
        }
      }
    }

    method PutIn(ip: string, now: int)
      requires Valid() && ip in entries && entries[ip].len < entries[ip].data.Length
      modifies this`Contents, Repr
      ensures Valid() && Contents == old(Contents)[ip := old(Contents)[ip] + [now]]
    {
      entries[ip].Put(now);
      Contents := Contents[ip := entries[ip].Slice()];
    }

    method AppendTo(ip: string, now: int)
      requires Valid() && ip in entries
      modifies this`Contents, this`Owner, this`Repr, Repr
      ensures Valid() && fresh(Repr - old(Repr)) && Contents == old(Contents)[ip := old(Contents)[ip] + [now]]
    {
      ReserveIn(ip);
      PutIn(ip, now);
    }

    // Look the entry up, or make it, and prune it.
    method Open(ip: string, cutoff: int)
      requires Valid()
      modifies this, Repr
      ensures Valid() && fresh(Repr - old(Repr)) && ip in entries
      ensures Contents == old(Contents)[ip := After(Stamps(old(Contents), ip), cutoff)]
    {
      if ip !in entries {
        AddEntry(ip);
      }
      PruneEntry(ip, cutoff);
      Overwrite(old(Contents), ip, [], After(Stamps(old(Contents), ip), cutoff));
    }

    method Allow(ip: string, now: int) returns (allowed: bool, retryAfter: int)
      requires Valid()
      modifies this, Repr
      ensures Valid() && fresh(Repr - old(Repr)) && Contents == AllowTable(old(Contents), ip, now).0
      ensures allowed == AllowTable(old(Contents), ip, now).1.Admitted?
      ensures if allowed then retryAfter == 0 else AllowTable(old(Contents), ip, now).1 == Refused(retryAfter)
    {
      Open(ip, now - WINDOW);
      ghost var live := Contents[ip];
      var n := Count(ip);
      if n >= MAX {
        var oldest := Oldest(ip);
        retryAfter := oldest + WINDOW - now;
        if retryAfter < SECOND {
          retryAfter := SECOND;
        }
        return false, retryAfter;
      }
      AppendTo(ip, now);
      Overwrite(old(Contents), ip, live, live + [now]);
      return true, 0;
    }

    // The cleaner's loop body
    method CleanEntry(ip: string, cutoff: int)
      requires Valid() && ip in entries
      modifies this`entries, this`Contents, Repr
      ensures Valid() && Contents == CleanOne(old(Contents), ip, cutoff)
    {
      PruneEntry(ip, cutoff);
      var n := Count(ip);
      if n == 0 {
        DeleteEntry(ip);
      }
      PrunedThenDropped(old(Contents), ip, cutoff);
    }

    method DeleteEntry(ip: string)
      requires Valid() && ip in entries
      modifies this`entries, this`Contents
      ensures Valid() && Contents == old(Contents) - {ip}
    {
      entries := entries - {ip};
      Contents := Contents - {ip};
    }

    // One round of the cleaner, over the map in any order.
    method Cleanup(now: int)
      requires Valid()
      modifies this, Repr
      ensures Valid() && Repr == old(Repr) && Contents == CleanTable(old(Contents), now)
    {
      var cutoff := now - WINDOW;
      ghost var before := Contents;
      var todo := entries.Keys;
      PartlyCleanEnds(before, now);
      while todo != {}
        invariant Valid() && Repr == old(Repr) && todo <= before.Keys
        invariant Contents == PartlyClean(before, todo, cutoff)
      {
        var ip :| ip in todo;
        StillThere(before, todo, ip, cutoff);
        CleanEntry(ip, cutoff);
        PartlyCleanStep(before, todo, ip, cutoff);
        todo := todo - {ip};
      }
    }
  }

  lemma Overwrite(t: Table, ip: string, first: seq<int>, second: seq<int>)
    ensures t[ip := first][ip := second] == t[ip := second]
  {
  }

  function CleanOne(t: Table, ip: string, cutoff: int): Table
    requires ip in t
  {
    if After(t[ip], cutoff) == [] then t - {ip} else t[ip := After(t[ip], cutoff)]
  }

  lemma PrunedThenDropped(t: Table, ip: string, cutoff: int)
    requires ip in t
    ensures var live := After(t[ip], cutoff);
      CleanOne(t, ip, cutoff) == if |live| == 0 then t[ip := live] - {ip} else t[ip := live]
  {
  }

  // Every address but those still to do has been cleaned.
  function PartlyClean(t: Table, todo: set<string>, cutoff: int): Table {
    map ip | ip in t && (ip in todo || After(t[ip], cutoff) != []) :: if ip in todo then t[ip] else After(t[ip], cutoff)
  }

  lemma PartlyCleanEnds(t: Table, now: int)
    ensures PartlyClean(t, t.Keys, now - WINDOW) == t
    ensures PartlyClean(t, {}, now - WINDOW) == CleanTable(t, now)
  {
  }

  lemma StillThere(t: Table, todo: set<string>, ip: string, cutoff: int)
    requires ip in todo && ip in t
    ensures ip in PartlyClean(t, todo, cutoff)
  {
  }

  lemma PartlyCleanStep(t: Table, todo: set<string>, ip: string, cutoff: int)
    requires ip in todo && ip in t
    ensures PartlyClean(t, todo - {ip}, cutoff) == CleanOne(PartlyClean(t, todo, cutoff), ip, cutoff)
  {
  }
}
