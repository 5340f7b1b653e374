/** The script that tells one process of an experiment which machine it
    runs on, in which order to reach the other processes, and at which
    addresses (exp/files/topology.py). */
module Topology {
  import opened Ids
  import opened Wrappers
  import opened Text

  /** What Python's `str.isspace` accepts: the characters `strip()`
      removes. */
  predicate IsSpace(c: char)
  {
    var k := c as int;
    (9 <= k <= 13) || (28 <= k <= 32) || k == 0x85 || k == 0xA0 || k == 0x1680
    || (0x2000 <= k <= 0x200A) || k == 0x2028 || k == 0x2029 || k == 0x202F
    || k == 0x205F || k == 0x3000
  }

  /** `lstrip()`: drops the leading whitespace and nothing else. */
  function TrimStart(s: string): (r: string)
    ensures |r| <= |s| && r == s[|s| - |r|..]
    ensures forall i :: 0 <= i < |s| - |r| ==> IsSpace(s[i])
    ensures r != [] ==> !IsSpace(r[0])
    decreases |s|
  {
    if s != [] && IsSpace(s[0]) then TrimStart(s[1..]) else s
  }

  /** `rstrip()`: drops the trailing whitespace and nothing else. */
  function TrimEnd(s: string): (r: string)
    ensures |r| <= |s| && r == s[..|r|]
    ensures forall i :: |r| <= i < |s| ==> IsSpace(s[i])
    ensures r != [] ==> !IsSpace(r[|r| - 1])
    decreases |s|
  {
    if s != [] && IsSpace(s[|s| - 1]) then TrimEnd(s[..|s| - 1]) else s
  }

  /** `strip()`. */
  function Strip(s: string): string
  {
    TrimEnd(TrimStart(s))
  }

  /** Text that neither starts nor ends with whitespace is left as it is. */
  lemma StripClean(s: string)
    requires s != [] ==> !IsSpace(s[0]) && !IsSpace(s[|s| - 1])
    ensures Strip(s) == s
  {
  }

  /** Stripping twice strips no more than stripping once. */
  lemma StripIdempotent(s: string)
    ensures Strip(Strip(s)) == Strip(s)
  {
    var t := TrimStart(s);
    var r := TrimEnd(t);
    if r != [] {
      assert r[0] == t[0];
    }
    StripClean(r);
  }

  /** A machine name or an address: not empty, and no whitespace in it. */
  predicate Word(w: string)
  {
    w != [] && forall i :: 0 <= i < |w| ==> !IsSpace(w[i])
  }

  /** `parse`: the stripped line split on single spaces must give exactly
      two parts, the machine and its IP; otherwise the assertion fails,
      which is `None` here. */
  function Parse(line: string): Option<(string, string)>
  {
    var parts := Split(Strip(line), ' ');
    if |parts| == 2 then Some((parts[0], parts[1])) else None
  }

  /** A line written as `machine ip` is read back as that pair. */
  lemma ParseLine(machine: string, ip: string)
    requires Word(machine) && Word(ip)
    ensures Parse(machine + " " + ip) == Some((machine, ip))
  {
    var line := machine + " " + ip;
    assert line[0] == machine[0] && line[|line| - 1] == ip[|ip| - 1];
    StripClean(line);
    assert [machine, ip][..1] == [machine];
    assert Join([machine, ip], ' ') == line;
    assert IsSpace(' ');
    SplitJoin([machine, ip], ' ');
  }

  /** A line that parses is, once stripped, the machine and the IP with
      one space between them, and neither holds a space. */
  lemma ParsedLine(line: string, machine: string, ip: string)
    requires Parse(line) == Some((machine, ip))
    ensures Strip(line) == machine + " " + ip
    ensures Free(machine, ' ') && Free(ip, ' ')
  {
    var parts := Split(Strip(line), ' ');
    assert parts == [machine, ip];
    JoinSplit(Strip(line), ' ');
    assert parts[..1] == [machine];
    SplitFree(Strip(line), ' ');
  }

  /** Every value present, in order, or `None` when one is missing. */
  function AllPresent<T>(xs: seq<Option<T>>): (r: Option<seq<T>>)
    ensures r.Some? ==> |r.value| == |xs|
    decreases |xs|
  {
    if xs == [] then Some([])
    else
      var prev := AllPresent(xs[..|xs| - 1]);
      var last := xs[|xs| - 1];
      if prev.Some? && last.Some? then Some(prev.value + [last.value]) else None
  }

  /** There is a result exactly when every value is present, and then it
      holds those values. */
  lemma {:induction false} AllPresentMeaning<T>(xs: seq<Option<T>>)
    ensures AllPresent(xs).Some? <==> forall i :: 0 <= i < |xs| ==> xs[i].Some?
    ensures AllPresent(xs).Some? ==> forall i :: 0 <= i < |xs| ==> xs[i] == Some(AllPresent(xs).value[i])
    decreases |xs|
  {
    if xs != [] {
      var init := xs[..|xs| - 1];
      AllPresentMeaning(init);
      assert forall i :: 0 <= i < |init| ==> init[i] == xs[i];
      var prev, last := AllPresent(init), xs[|xs| - 1];
      if prev.Some? && last.Some? {
        var r := prev.value + [last.value];
        forall i | 0 <= i < |xs|
          ensures xs[i] == Some(r[i])
        {
          if i < |init| {
            assert r[i] == prev.value[i];
          }
        }
      }
    }
  }

  /** `machines_and_ips` on the lines of the file: every line parsed, in
      order, or `None` when one of them fails the assertion. */
  function MachinesAndIps(content: seq<string>): Option<seq<(string, string)>>
  {
    AllPresent(seq(|content|, i requires 0 <= i < |content| => Parse(content[i])))
  }

  /** The file is read exactly when every line parses, and then each
      entry is its line, parsed. */
  lemma MachinesAndIpsMeaning(content: seq<string>)
    ensures MachinesAndIps(content).Some? <==> forall i :: 0 <= i < |content| ==> Parse(content[i]).Some?
    ensures MachinesAndIps(content).Some? ==>
      |MachinesAndIps(content).value| == |content| &&
      forall i :: 0 <= i < |content| ==> Parse(content[i]) == Some(MachinesAndIps(content).value[i])
  {
    var parsed := seq(|content|, i requires 0 <= i < |content| => Parse(content[i]));
    AllPresentMeaning(parsed);
    if forall i :: 0 <= i < |content| ==> Parse(content[i]).Some? {
      forall i | 0 <= i < |parsed|
        ensures parsed[i].Some?
      {
        assert parsed[i] == Parse(content[i]);
      }
    } else {
      var i :| 0 <= i < |content| && Parse(content[i]).None?;
      assert parsed[i].None?;
    }
  }

  /** `list(range(a, b))`. */
  function Range(a: int, b: int): (r: seq<int>)
    ensures |r| == (if a < b then b - a else 0)
    ensures forall i :: 0 <= i < |r| ==> r[i] == a + i
  {
    seq(if a < b then b - a else 0, i => a + i)
  }

  /** `sorted_by_distance`: the processes from `id` up to `n`, then those
      before `id`. */
  function SortedByDistance(id: int, n: int): seq<int>
  {
    Range(id, n + 1) + Range(1, id)
  }

  /** For a process of the system, the order is the ring of processes
      read from `id` onwards: the `i`-th entry is `id + i`, wrapping
      round to 1 after `n`. */
  lemma SortedByDistanceRing(id: int, n: int)
    requires 1 <= id <= n
    ensures |SortedByDistance(id, n)| == n && SortedByDistance(id, n)[0] == id
    ensures forall i :: 0 <= i < n ==> SortedByDistance(id, n)[i] == if id + i <= n then id + i else id + i - n
  {
    var r := SortedByDistance(id, n);
    assert forall i :: 0 <= i <= n - id ==> r[i] == Range(id, n + 1)[i];
    assert forall i :: n - id < i < n ==> r[i] == Range(1, id)[i - (n + 1 - id)];
  }

  /** For a process of the system, every process appears once. */
  lemma SortedByDistancePermutation(id: int, n: int)
    requires 1 <= id <= n
    ensures NoDup(SortedByDistance(id, n))
    ensures forall p :: p in SortedByDistance(id, n) <==> 1 <= p <= n
  {
    var r := SortedByDistance(id, n);
    var k := n + 1 - id;
    assert forall i :: 0 <= i < k ==> r[i] == id + i;
    assert forall i :: k <= i < |r| ==> r[i] == i - k + 1;
    forall p | 1 <= p <= n
      ensures p in r
    {
      if id <= p {
        assert r[p - id] == p;
      } else {
        assert r[p - 1 + k] == p;
      }
    }
  }

  /** The IPs of some entries, in order. */
  function Ips(data: seq<(string, string)>): (ips: seq<string>)
    ensures |ips| == |data| && forall i :: 0 <= i < |data| ==> ips[i] == data[i].1
  {
    seq(|data|, i requires 0 <= i < |data| => data[i].1)
  }

  /** The IPs the loop collects from processes `1..k`. */
  function OtherIps(data: seq<(string, string)>, id: int, k: int): seq<string>
    requires k <= |data|
    decreases k
  {
    if k <= 0 then [] else OtherIps(data, id, k - 1) + (if k == id then [] else [data[k - 1].1])
  }

  /** The IPs of the first `k` processes but `id`, as slices of the file. */
  lemma {:induction false} OtherIpsSlices(data: seq<(string, string)>, id: int, k: int)
    requires 0 <= k <= |data|
    ensures 1 <= id <= k ==> OtherIps(data, id, k) == Ips(data[..id - 1]) + Ips(data[id..k])
    ensures !(1 <= id <= k) ==> OtherIps(data, id, k) == Ips(data[..k])
    decreases k
  {
    if k > 0 {
      OtherIpsSlices(data, id, k - 1);
      if id == k {
        assert !(1 <= id <= k - 1);
        assert data[id..k] == [];
      } else if 1 <= id < k {
        assert Ips(data[id..k]) == Ips(data[id..k - 1]) + [data[k - 1].1];
      } else {
        assert Ips(data[..k]) == Ips(data[..k - 1]) + [data[k - 1].1];
      }
    }
  }

  /** The loop at the end of the script: the IP of every process but
      `id`, in process order, and the machine and IP of `id` itself when
      it is one of the `n` processes. Reading past the file is an error
      in the script, so `n` must not exceed its entries. */
  method CollectIps(data: seq<(string, string)>, id: int, n: int) returns (ips: seq<string>, mine: Option<(string, string)>)
    requires n <= |data|
    ensures ips == OtherIps(data, id, n)
    ensures 1 <= id <= n ==> ips == Ips(data[..id - 1]) + Ips(data[id..n]) && mine == Some(data[id - 1])
    ensures !(1 <= id <= n) ==> ips == Ips(data[..if n < 0 then 0 else n]) && mine == None
  {
    ips := [];
    mine := None;
    var p := 1;
    while p <= n
      invariant 1 <= p <= (if n < 1 then 1 else n + 1)
      invariant ips == OtherIps(data, id, p - 1)
      invariant mine == if 1 <= id < p then Some(data[id - 1]) else None
    {
      var entry := data[p - 1];
      if p == id {
        mine := Some(entry);
      } else {
        ips := ips + [entry.1];
      }
      p := p + 1;
    }
    if n < 1 {
      assert OtherIps(data, id, n) == [] && OtherIps(data, id, p - 1) == [];
    }
    OtherIpsSlices(data, id, if n < 0 then 0 else n);
  }

  /** `str` on an integer. */
  function IntText(x: int): (s: string)
    ensures Free(s, ' ') && Free(s, ',')
  {
    DecimalFree(if x < 0 then -x else x, ' ');
    DecimalFree(if x < 0 then -x else x, ',');
    if x < 0 then "-" + Decimal(-x) else Decimal(x)
  }

  function Texts(xs: seq<int>): (r: seq<string>)
    ensures |r| == |xs| && forall i :: 0 <= i < |xs| ==> r[i] == IntText(xs[i])
  {
    seq(|xs|, i requires 0 <= i < |xs| => IntText(xs[i]))
  }

  /** The line the script prints: the machine, the order, this process's
      IP and the other IPs, separated by spaces; the order and the IPs are
      each joined with commas. */
  function Report(machine: string, sorted: seq<int>, ip: string, ips: seq<string>): string
  {
    Join([machine, Join(Texts(sorted), ','), ip, Join(ips, ',')], ' ')
  }

  /** Pieces without a character, joined on another, still lack it. */
  lemma {:induction false} JoinFree(parts: seq<string>, sep: char, c: char)
    requires sep != c
    requires forall i :: 0 <= i < |parts| ==> Free(parts[i], c)
    ensures Free(Join(parts, sep), c)
    decreases |parts|
  {
    if |parts| > 1 {
      var init := parts[..|parts| - 1];
      JoinFree(init, sep, c);
      FreeAppend(Join(init, sep), [sep], c);
      FreeAppend(Join(init, sep) + [sep], parts[|parts| - 1], c);
    }
  }

  /** When the machine, the IP and the other IPs hold no space, the
      printed line splits on spaces into its four fields, the order field
      splits on commas into the process numbers, and, with at least one
      other process and no comma in any IP, the last field splits on
      commas into the other IPs. */
  lemma ReportFields(machine: string, sorted: seq<int>, ip: string, ips: seq<string>)
    requires Free(machine, ' ') && Free(ip, ' ')
    requires forall i :: 0 <= i < |ips| ==> Free(ips[i], ' ')
    ensures Split(Report(machine, sorted, ip, ips), ' ') == [machine, Join(Texts(sorted), ','), ip, Join(ips, ',')]
    ensures |sorted| >= 1 ==> Split(Join(Texts(sorted), ','), ',') == Texts(sorted)
    ensures |ips| >= 1 && (forall i :: 0 <= i < |ips| ==> Free(ips[i], ',')) ==> Split(Join(ips, ','), ',') == ips
  {
    var order, others := Join(Texts(sorted), ','), Join(ips, ',');
    JoinFree(Texts(sorted), ',', ' ');
    JoinFree(ips, ',', ' ');
    FourFields(machine, order, ip, others, ' ');
    if |sorted| >= 1 {
      SplitJoin(Texts(sorted), ',');
    }
    if |ips| >= 1 && forall i :: 0 <= i < |ips| ==> Free(ips[i], ',') {
      SplitJoin(ips, ',');
    }
  }

  /** Four pieces without the separator, joined, split back into them. */
  lemma FourFields(a: string, b: string, c: string, d: string, sep: char)
    requires Free(a, sep) && Free(b, sep) && Free(c, sep) && Free(d, sep)
    ensures Split(Join([a, b, c, d], sep), sep) == [a, b, c, d]
  {
    var fields := [a, b, c, d];
    assert forall i :: 0 <= i < 4 ==> fields[i] == a || fields[i] == b || fields[i] == c || fields[i] == d;
    SplitJoin(fields, sep);
  }

  /** The script for process 2 of 3 on a three-line file: it runs on the
      second machine, reaches the processes in the order 2, 3, 1, and
      connects to the first and third IPs. */
  method SecondOfThree() returns (ips: seq<string>, mine: Option<(string, string)>, sorted: seq<int>)
    ensures ips == ["10.0.0.1", "10.0.0.3"] && mine == Some(("m2", "10.0.0.2")) && sorted == [2, 3, 1]
  {
    var data := [("m1", "10.0.0.1"), ("m2", "10.0.0.2"), ("m3", "10.0.0.3")];
    ips, mine := CollectIps(data, 2, 3);
    assert data[..1] == [("m1", "10.0.0.1")] && data[2..3] == [("m3", "10.0.0.3")];
    sorted := SortedByDistance(2, 3);
    assert Range(2, 4) == [2, 3] && Range(1, 2) == [1];
  }
}
