/** User information and configurations, paged behind the file header. */
module Info {
  import opened Pages
  import opened StoreInv
  import opened Sizing

  /** A page of user information: the bytes behind the page header. The first page starts
      with the length of the information. */
  datatype UserPage = UserPage(num: nat, len: nat, mem: Bytes)

  /** Bytes of information on page i: the first page also holds the length. */
  function Room(bsize: nat, i: nat): int {
    if i == 0 then bsize - PAGE_OVERHEAD - UINT_SIZE else bsize - PAGE_OVERHEAD
  }

  ghost predicate UserPagesOk(bsize: nat, pages: seq<UserPage>) {
    forall i :: 0 <= i < |pages| ==> |pages[i].mem| == Room(bsize, i)
  }

  /** The bytes of the first n pages, one after the other. */
  function Joined(pages: seq<UserPage>, n: nat): Bytes
    requires n <= |pages|
  {
    if n == 0 then [] else Joined(pages, n - 1) + pages[n - 1].mem
  }

  lemma {:induction false} JoinedSize(bsize: nat, pages: seq<UserPage>, n: nat)
    requires BsizeOk(bsize) && UserPagesOk(bsize, pages) && n <= |pages|
    ensures n > 0 ==> |Joined(pages, n)| == UinfoRoom(bsize, n)
  {
    if n > 1 {
      JoinedSize(bsize, pages, n - 1);
      assert n * (bsize - PAGE_OVERHEAD) == (n - 1) * (bsize - PAGE_OVERHEAD) + (bsize - PAGE_OVERHEAD);
    } else if n == 1 {
      assert Joined(pages, 0) == [];
    }
  }

  lemma JoinedStep(pages: seq<UserPage>, n: nat)
    requires n < |pages|
    ensures Joined(pages, n + 1) == Joined(pages, n) + pages[n].mem && Joined(pages, 0) == []
  {
  }

  lemma {:induction false} JoinedFrame(pages: seq<UserPage>, pages': seq<UserPage>, n: nat)
    requires n <= |pages| && n <= |pages'| && forall i :: 0 <= i < n ==> pages'[i] == pages[i]
    ensures Joined(pages', n) == Joined(pages, n)
  {
    if n > 0 {
      JoinedFrame(pages, pages', n - 1);
    }
  }

  function Min(a: int, b: int): int {
    if a < b then a else b
  }

  datatype Config = Config(config: int, index: int, body: Bytes)

  /** The configurations of the first n pages. */
  function InOrder(pages: seq<seq<Config>>, n: nat): seq<Config>
    requires n <= |pages|
  {
    if n == 0 then [] else InOrder(pages, n - 1) + pages[n - 1]
  }

  lemma {:induction false} InOrderFrame(pages: seq<seq<Config>>, pages': seq<seq<Config>>, n: nat)
    requires n <= |pages| && n <= |pages'| && forall i :: 0 <= i < n ==> pages'[i] == pages[i]
    ensures InOrder(pages', n) == InOrder(pages, n)
  {
    if n > 0 {
      InOrderFrame(pages, pages', n - 1);
    }
  }

  /** The list with the first entry for which both numbers agree replaced; unchanged without one. */
  function Replaced(s: seq<Config>, c: Config): seq<Config> {
    if s == [] then []
    else if s[0].index == c.index && s[0].config == c.config then [c] + s[1..]
    else [s[0]] + Replaced(s[1..], c)
  }

  predicate Has(s: seq<Config>, c: Config) {
    exists i :: 0 <= i < |s| && s[i].index == c.index && s[i].config == c.config
  }

  lemma {:induction false} ReplacedAt(s: seq<Config>, c: Config, i: nat)
    requires i < |s| && s[i].index == c.index && s[i].config == c.config
    requires forall j :: 0 <= j < i ==> !(s[j].index == c.index && s[j].config == c.config)
    ensures Replaced(s, c) == s[i := c]
  {
    if i > 0 {
      ReplacedAt(s[1..], c, i - 1);
    }
  }

  /** The part of a file between its header and its buckets. */
  class InfoPages {
    const bsize: nat
    const uinfolen: nat
    const numCfigs: nat
    var user: seq<UserPage>
    var configs: seq<seq<Config>>

    ghost predicate Valid()
      reads this
    {
      && BsizeOk(bsize) && |user| >= 1 && UserPagesOk(bsize, user) && uinfolen <= UinfoRoom(bsize, |user|)
      && numCfigs <= |configs| * ConfigsPerPage(bsize)
    }

    /** The pages that a new file of this layout has. */
    constructor (f: FileLayout)
      requires BsizeOk(f.hdr.bsize) && Tiles(f) && JustEnough(f)
      ensures Valid() && uinfolen == f.uinfoLen && numCfigs == f.numConfigs && bsize == f.hdr.bsize
      ensures |user| == f.uinfoPages && |configs| == f.cfigPages
    {
      bsize, uinfolen, numCfigs := f.hdr.bsize, f.uinfoLen, f.numConfigs;
      user := seq(f.uinfoPages, i requires 0 <= i < f.uinfoPages =>
        UserPage(0, 0, seq(if i == 0 then f.hdr.bsize - PAGE_OVERHEAD - UINT_SIZE else f.hdr.bsize - PAGE_OVERHEAD, _ => 0 as Byte)));
      configs := seq(f.cfigPages, _ => []);
    }

    /** Copies the information onto the pages, as much as they hold. */
    method SetUinfo(data: Bytes)
      requires Valid()
      modifies `user
      ensures Valid() && |user| == |old(user)| && user[0].len == |data|
      ensures |Joined(user, |user|)| == UinfoRoom(bsize, |user|)
      ensures var n := Min(|data|, |Joined(user, |user|)|); Joined(user, |user|)[..n] == data[..n]
    {
      hide UinfoRoom;
      var rlen := |data|;
      var i := 0;
      while i < |user|
        invariant 0 <= i <= |user| == |old(user)| && 0 <= rlen <= |data| && UserPagesOk(bsize, user)
        invariant i > 0 ==> user[0].len == |data|
        invariant |Joined(user, i)| >= |data| - rlen && Joined(user, i)[..|data| - rlen] == data[..|data| - rlen]
        invariant rlen > 0 ==> |data| - rlen == |Joined(user, i)|
      {
        var room := if i == 0 then bsize - PAGE_OVERHEAD - UINT_SIZE else bsize - PAGE_OVERHEAD;
        var copylen := if rlen > room then room else rlen;
        var idx := |data| - rlen;
        ghost var before := user;
        var mem := data[idx..idx + copylen] + user[i].mem[copylen..];
        user := user[i := UserPage(if i == 0 then 1 else 0, if i == 0 then rlen else user[i].len, mem)];
        JoinedFrame(before, user, i);
        Copied(data, idx, copylen, Joined(user, i), mem);
        rlen := rlen - copylen;
        i := i + 1;
      }
      JoinedSize(bsize, user, |user|);
    }

    lemma Copied(data: Bytes, idx: nat, n: nat, done: Bytes, mem: Bytes)
      requires idx + n <= |data| && n <= |mem| && mem[..n] == data[idx..idx + n]
      requires |done| >= idx && done[..idx] == data[..idx] && (n > 0 ==> |done| == idx)
      ensures |done + mem| >= idx + n && (done + mem)[..idx + n] == data[..idx + n]
    {
    }

    /** Copies the stored information into a buffer; fails when the buffer is too small. */
    method GetUinfo(buf: Bytes) returns (ok: bool, data: Bytes)
      requires Valid()
      ensures ok <==> user[0].len <= |buf|
      ensures ok ==> |data| == user[0].len
      ensures |Joined(user, |user|)| == UinfoRoom(bsize, |user|)
      ensures ok ==> var n := Min(user[0].len, |Joined(user, |user|)|); data == Joined(user, |user|)[..n] + buf[n..user[0].len]
    {
      hide UinfoRoom, Joined, UserPagesOk, Read;
      JoinedSize(bsize, user, |user|);
      if |buf| < user[0].len {
        return false, [];
      }
      var len := user[0].len;
      var rlen := len;
      data := buf[..len];
      var i := 0;
      JoinedStep(user, 0);
      ReadNothing(buf, len);
      while i < |user|
        invariant 0 <= i <= |user| && 0 <= rlen <= len == |data|
        invariant Read(Joined(user, i), rlen, buf, data, len)
      {
        JoinedStep(user, i);
        PageRoom(i);
        var room := if i == 0 then bsize - PAGE_OVERHEAD - UINT_SIZE else bsize - PAGE_OVERHEAD;
        var copylen := if rlen > room then room else rlen;
        var idx := len - rlen;
        ReadMore(Joined(user, i), user[i].mem, rlen, buf, data, len);
        data := data[..idx] + user[i].mem[..copylen] + data[idx + copylen..];
        rlen := rlen - copylen;
        i := i + 1;
      }
      ReadAll(Joined(user, i), rlen, buf, data, len);
      ok := true;
    }

    /** All but rlen bytes were read; the rest of the data is the buffer as it was. */
    ghost predicate Read(done: Bytes, rlen: int, buf: Bytes, data: Bytes, len: nat) {
      && 0 <= rlen <= len == |data| && len <= |buf| && |done| >= len - rlen
      && data == done[..len - rlen] + buf[len - rlen..len]
      && (rlen > 0 ==> len - rlen == |done|)
    }

    lemma ReadNothing(buf: Bytes, len: nat)
      requires len <= |buf|
      ensures Read([], len, buf, buf[..len], len)
    {
    }

    lemma ReadMore(done: Bytes, mem: Bytes, rlen: nat, buf: Bytes, data: Bytes, len: nat)
      requires Read(done, rlen, buf, data, len)
      ensures var n := if rlen > |mem| then |mem| else rlen; var idx := len - rlen;
        idx + n <= |data| && Read(done + mem, rlen - n, buf, data[..idx] + mem[..n] + data[idx + n..], len)
    {
    }

    lemma ReadAll(done: Bytes, rlen: int, buf: Bytes, data: Bytes, len: nat)
      requires Read(done, rlen, buf, data, len)
      ensures var n := Min(len, |done|); n <= len && data == done[..n] + buf[n..len]
    {
    }

    lemma PageRoom(i: nat)
      requires UserPagesOk(bsize, user) && i < |user|
      ensures |user[i].mem| == Room(bsize, i)
    {
    }

    /** What was set comes back when it fits behind the header: always up to the length the
        file was made for. What does not fit is cut off, and the rest of the buffer shows. */
    method SetThenGet(data: Bytes, buf: Bytes) returns (back: Bytes)
      requires Valid() && |data| <= |buf|
      modifies `user
      ensures Valid() && |back| == |data|
      ensures |data| <= UinfoRoom(bsize, |user|) ==> back == data
      ensures |data| <= uinfolen ==> back == data
      ensures |data| > UinfoRoom(bsize, |user|) ==> back[UinfoRoom(bsize, |user|)..] == buf[UinfoRoom(bsize, |user|)..|data|]
    {
      hide UinfoRoom;
      JoinedSize(bsize, user, |user|);
      SetUinfo(data);
      var ok;
      ok, back := GetUinfo(buf);
    }

    /** Distributes the configurations over the pages. */
    method SetConfigs(all: seq<Config>)
      requires Valid() && |all| == numCfigs
      modifies `configs
      ensures Valid() && |configs| == |old(configs)| && InOrder(configs, |configs|) == all
    {
      hide ConfigsPerPage;
      var cnum, tnums := 0, numCfigs;
      var per := ConfigsPerPage(bsize);
      PerPagePositive(bsize);
      var i := 0;
      while i < |configs|
        invariant 0 <= i <= |configs| == |old(configs)| && 0 <= cnum && cnum + tnums == numCfigs && 0 <= tnums
        invariant InOrder(configs, i) == all[..cnum]
        invariant tnums > 0 ==> cnum == i * per
      {
        var numelems := if per > tnums then tnums else per;
        ghost var before := configs;
        configs := configs[i := all[cnum..cnum + numelems]];
        InOrderFrame(before, configs, i);
        assert all[..cnum] + all[cnum..cnum + numelems] == all[..cnum + numelems];
        assert (i + 1) * per == i * per + per;
        cnum := cnum + numelems;
        tnums := tnums - numelems;
        i := i + 1;
      }
      assert tnums == 0;
      assert all[..cnum] == all;
    }

    /** All configurations, page after page. */
    method GetConfigs() returns (all: seq<Config>)
      ensures all == InOrder(configs, |configs|)
    {
      all := [];
      var i := 0;
      while i < |configs|
        invariant 0 <= i <= |configs| && all == InOrder(configs, i)
      {
        var k := 0;
        while k < |configs[i]|
          invariant 0 <= k <= |configs[i]| && all == InOrder(configs, i) + configs[i][..k]
        {
          all := all + [configs[i][k]];
          k := k + 1;
        }
        assert configs[i][..k] == configs[i];
        i := i + 1;
      }
    }

    /** Replaces the first configuration with the same two numbers. */
    method SetConfigInfo(c: Config) returns (ok: bool)
      requires Valid()
      modifies `configs
      ensures Valid() && |configs| == |old(configs)|
      ensures ok <==> Has(InOrder(old(configs), |old(configs)|), c)
      ensures InOrder(configs, |configs|) == if ok then Replaced(InOrder(old(configs), |old(configs)|), c) else InOrder(old(configs), |old(configs)|)
    {
      var i := 0;
      while i < |configs|
        invariant 0 <= i <= |configs| && configs == old(configs)
        invariant !Has(InOrder(configs, i), c)
      {
        var k := 0;
        while k < |configs[i]|
          invariant configs == old(configs) && 0 <= k <= |configs[i]|
          invariant !Has(InOrder(configs, i) + configs[i][..k], c)
        {
          if configs[i][k].index == c.index && configs[i][k].config == c.config {
            FoundAt(configs, i, k, c);
            configs := configs[i := configs[i][k := c]];
            return true;
          }
          NotThat(InOrder(configs, i) + configs[i][..k], configs[i][k], c);
          assert InOrder(configs, i) + configs[i][..k] + [configs[i][k]] == InOrder(configs, i) + configs[i][..k + 1];
          k := k + 1;
        }
        assert configs[i][..k] == configs[i];
        i := i + 1;
      }
      return false;
    }

    lemma NotThat(s: seq<Config>, x: Config, c: Config)
      requires !Has(s, c) && !(x.index == c.index && x.config == c.config)
      ensures !Has(s + [x], c)
    {
    }

    lemma FoundAt(pages: seq<seq<Config>>, i: nat, k: nat, c: Config)
      requires i < |pages| && k < |pages[i]| && pages[i][k].index == c.index && pages[i][k].config == c.config
      requires !Has(InOrder(pages, i) + pages[i][..k], c)
      ensures Has(InOrder(pages, |pages|), c)
      ensures InOrder(pages[i := pages[i][k := c]], |pages|) == Replaced(InOrder(pages, |pages|), c)
    {
      var n := |InOrder(pages, i)| + k;
      var all := InOrder(pages, |pages|);
      InOrderAt(pages, i, k, |pages|, c);
      var pre := InOrder(pages, i) + pages[i][..k];
      assert n < |all| && all[n] == pages[i][k];
      forall j | 0 <= j < n
        ensures !(all[j].index == c.index && all[j].config == c.config)
      {
        assert all[j] == pre[j];
      }
      ReplacedAt(all, c, n);
    }

    /** Changing one entry of a page changes that entry of the list. */
    lemma {:induction false} InOrderAt(pages: seq<seq<Config>>, i: nat, k: nat, m: nat, c: Config)
      requires i < m <= |pages| && k < |pages[i]|
      ensures var n := |InOrder(pages, i)| + k;
        && n < |InOrder(pages, m)| && InOrder(pages, m)[n] == pages[i][k]
        && InOrder(pages, m)[..n] == InOrder(pages, i) + pages[i][..k]
        && InOrder(pages[i := pages[i][k := c]], m) == InOrder(pages, m)[n := c]
      decreases m
    {
      var n := |InOrder(pages, i)| + k;
      var pages' := pages[i := pages[i][k := c]];
      if m == i + 1 {
        InOrderFrame(pages, pages', i);
      } else {
        InOrderAt(pages, i, k, m - 1, c);
        assert InOrder(pages', m) == InOrder(pages', m - 1) + pages[m - 1];
      }
    }
  }
}
