/** MainApp's host history (main.py:293-339): the settings file keeps
    one host per line, most recently used first. The file's text is the
    text Python reads after newline translation; a missing file is None. */
module HostHistory {

  import opened Wrappers

  const NewLine: char := '\n'

  /** The length of the first line of s, its newline included when it
      has one. */
  function LineLength(s: string): (n: nat)
    requires s != []
    ensures 1 <= n <= |s|
    ensures forall i :: 0 <= i < n - 1 ==> s[i] != NewLine
    ensures n < |s| ==> s[n - 1] == NewLine
  {
    if s[0] == NewLine || |s| == 1 then 1 else 1 + LineLength(s[1..])
  }

  /** The lines iterating over a text file yields: each keeps its
      newline, the last one may have none, and no line is empty. */
  function Lines(s: string): (r: seq<string>)
    ensures forall i :: 0 <= i < |r| ==> r[i] != []
    decreases |s|
  {
    if s == [] then [] else [s[..LineLength(s)]] + Lines(s[LineLength(s)..])
  }

  /** `ip_adress[:-1]`: the line without its last character. */
  function Chop(line: string): string {
    if line == [] then [] else line[..|line| - 1]
  }

  /** What `read_host_list_from_file` returns for the file: [] when it is
      missing, otherwise every line with its last character cut off. */
  function HostListOf(file: Option<string>): (r: seq<string>)
  {
    if file.None? then [] else
      var lines := Lines(file.value);
      seq(|lines|, (i: int) requires 0 <= i < |lines| => Chop(lines[i]))
  }

  /** `"\n".join(hosts)`. */
  function Join(hosts: seq<string>): string
    decreases |hosts|
  {
    if hosts == [] then []
    else if |hosts| == 1 then hosts[0]
    else hosts[0] + [NewLine] + Join(hosts[1..])
  }

  /** The text `write_host_list_to_file` writes. */
  function HostFileText(hosts: seq<string>): string {
    Join(hosts) + [NewLine]
  }

  predicate NoNewLine(h: string) {
    NewLine !in h
  }

  /** `host_list.remove(ip)`: drops the first occurrence. */
  function RemoveFirst(hosts: seq<string>, ip: string): (r: seq<string>)
    decreases |hosts|
  {
    if hosts == [] then []
    else if hosts[0] == ip then hosts[1..]
    else [hosts[0]] + RemoveFirst(hosts[1..], ip)
  }

  /** The list `add_host_to_history` writes back: ip removed where it
      was, then put first. */
  function MoveToFront(hosts: seq<string>, ip: string): seq<string> {
    [ip] + (if ip in hosts then RemoveFirst(hosts, ip) else hosts)
  }

  /** The hosts other than ip, in order. */
  function Others(hosts: seq<string>, ip: string): (r: seq<string>)
    ensures ip !in r
    decreases |hosts|
  {
    if hosts == [] then []
    else (if hosts[0] == ip then [] else [hosts[0]]) + Others(hosts[1..], ip)
  }

  /** The host `set_host_from_file` leaves as the client's host: the
      first listed one when there is one and `tools.check_ip_adress`
      accepts it, otherwise the current host. */
  function HostAfterSet(current: string, hosts: seq<string>, isIp: string -> bool): string {
    if hosts != [] && isIp(hosts[0]) then hosts[0] else current
  }

  // ---------------------------------------------------------------------
  // Lemmas

  /** Removing the first occurrence of ip cuts out the earliest position
      that holds ip, so exactly one ip goes and the other hosts keep their
      order. */
  lemma RemoveFirstEffect(hosts: seq<string>, ip: string)
    requires ip in hosts
    ensures var r := RemoveFirst(hosts, ip);
      && (exists k :: 0 <= k < |hosts| && hosts[k] == ip && ip !in hosts[..k] && r == hosts[..k] + hosts[k + 1..])
      && multiset(r) == multiset(hosts) - multiset{ip}
      && Others(r, ip) == Others(hosts, ip)
      && |r| == |hosts| - 1
  {
    RemoveFirstPosition(hosts, ip);
    RemoveFirstCounts(hosts, ip);
  }

  /** Removing the first ip takes one ip out of the multiset and leaves the
      other hosts in order. */
  lemma {:induction false} RemoveFirstCounts(hosts: seq<string>, ip: string)
    requires ip in hosts
    ensures var r := RemoveFirst(hosts, ip);
      && multiset(r) == multiset(hosts) - multiset{ip}
      && Others(r, ip) == Others(hosts, ip)
      && |r| == |hosts| - 1
    decreases |hosts|
  {
    if hosts[0] == ip {
      assert hosts == [hosts[0]] + hosts[1..];
    } else {
      RemoveFirstCounts(hosts[1..], ip);
      assert hosts == [hosts[0]] + hosts[1..];
      var r := RemoveFirst(hosts, ip);
      assert r == [hosts[0]] + RemoveFirst(hosts[1..], ip);
      assert r[1..] == RemoveFirst(hosts[1..], ip);
    }
  }

  /** The list `remove(ip)` leaves is the old list with the element at the
      first position holding ip cut out. */
  lemma RemoveFirstPosition(hosts: seq<string>, ip: string)
    requires ip in hosts
    ensures exists k :: 0 <= k < |hosts| && hosts[k] == ip && ip !in hosts[..k]
                        && RemoveFirst(hosts, ip) == hosts[..k] + hosts[k + 1..]
  {
    var k := FirstPosition(hosts, ip);
  }

  /** The first position holding ip, found along the recursion of
      RemoveFirst. */
  lemma {:induction false} FirstPosition(hosts: seq<string>, ip: string) returns (k: nat)
    requires ip in hosts
    ensures k < |hosts| && hosts[k] == ip && ip !in hosts[..k]
    ensures RemoveFirst(hosts, ip) == hosts[..k] + hosts[k + 1..]
    decreases |hosts|
  {
    if hosts[0] == ip {
      k := 0;
      assert hosts[..0] == [];
    } else {
      var tail := hosts[1..];
      assert ip in tail by {
        assert hosts == [hosts[0]] + tail;
      }
      var j := FirstPosition(tail, ip);
      k := j + 1;
      ConsSlices(hosts, j);
      ConsThree(hosts[0], tail[..j], tail[j + 1..]);
    }
  }

  /** How the slices of a sequence relate to the slices of its tail. */
  lemma ConsSlices<T>(s: seq<T>, j: nat)
    requires j + 1 < |s|
    ensures s[j + 1] == s[1..][j]
    ensures s[..j + 1] == [s[0]] + s[1..][..j]
    ensures s[j + 2..] == s[1..][j + 1..]
  {
  }

  /** After `add_host_to_history(ip)` the list is ip followed by the old
      list with its first ip cut out (or the whole old list when ip was not
      there): every other host keeps its order, and ip occurs once more
      than before, or once as often when it was already there. */
  lemma MoveToFrontEffect(hosts: seq<string>, ip: string)
    ensures var r := MoveToFront(hosts, ip);
      && r[0] == ip
      && (ip in hosts ==> exists k :: 0 <= k < |hosts| && hosts[k] == ip && ip !in hosts[..k]
                                      && r == [ip] + hosts[..k] + hosts[k + 1..])
      && (ip !in hosts ==> r == [ip] + hosts)
      && Others(r, ip) == Others(hosts, ip)
      && (ip in hosts ==> multiset(r) == multiset(hosts) && |r| == |hosts|)
      && (ip !in hosts ==> multiset(r) == multiset(hosts) + multiset{ip} && |r| == |hosts| + 1)
  {
    var t := if ip in hosts then RemoveFirst(hosts, ip) else hosts;
    OthersSkip(ip, t);
    MultisetCons(ip, t);
    if ip in hosts {
      RemoveFirstEffect(hosts, ip);
      PutBack(multiset(hosts), ip);
      var k :| 0 <= k < |hosts| && hosts[k] == ip && ip !in hosts[..k] && t == hosts[..k] + hosts[k + 1..];
      ConsThree(ip, hosts[..k], hosts[k + 1..]);
    }
  }

  lemma ConsThree<T>(x: T, a: seq<T>, b: seq<T>)
    ensures [x] + (a + b) == [x] + a + b
  {
  }

  lemma MultisetCons<T>(x: T, t: seq<T>)
    ensures multiset([x] + t) == multiset{x} + multiset(t) && |[x] + t| == 1 + |t|
  {
  }

  lemma PutBack<T>(m: multiset<T>, x: T)
    requires x in m
    ensures multiset{x} + (m - multiset{x}) == m
  {
  }

  lemma OthersSkip(ip: string, t: seq<string>)
    ensures Others([ip] + t, ip) == Others(t, ip)
  {
    assert ([ip] + t)[1..] == t;
  }

  /** The first line of `h + "\n" + rest` is `h + "\n"` when h has no
      newline. */
  lemma {:induction false} LineLengthOf(h: string, rest: string)
    requires NoNewLine(h)
    ensures LineLength(h + [NewLine] + rest) == |h| + 1
    decreases |h|
  {
    var s := h + [NewLine] + rest;
    if h != [] {
      assert s[1..] == h[1..] + [NewLine] + rest;
      LineLengthOf(h[1..], rest);
    }
  }

  lemma LinesCons(h: string, rest: string)
    requires NoNewLine(h)
    ensures Lines(h + [NewLine] + rest) == [h + [NewLine]] + Lines(rest)
  {
    var s := h + [NewLine] + rest;
    LineLengthOf(h, rest);
    assert s[..|h| + 1] == h + [NewLine];
    assert s[|h| + 1..] == rest;
  }

  /** The lines of the text written for a nonempty list of newline-free
      hosts are the hosts, each followed by its newline. */
  lemma {:induction false} LinesOfHostFile(hosts: seq<string>)
    requires hosts != [] && forall i :: 0 <= i < |hosts| ==> NoNewLine(hosts[i])
    ensures var lines := Lines(HostFileText(hosts));
      |lines| == |hosts| && forall i :: 0 <= i < |hosts| ==> lines[i] == hosts[i] + [NewLine]
    decreases |hosts|
  {
    if |hosts| == 1 {
      LinesCons(hosts[0], []);
      assert HostFileText(hosts) == hosts[0] + [NewLine] + [];
    } else {
      var tail := hosts[1..];
      LinesOfHostFile(tail);
      assert HostFileText(hosts) == hosts[0] + [NewLine] + HostFileText(tail);
      LinesCons(hosts[0], HostFileText(tail));
    }
  }

  /** Writing a nonempty list of newline-free hosts and reading it back
      gives the list. */
  lemma HostFileRoundTrip(hosts: seq<string>)
    requires hosts != [] && forall i :: 0 <= i < |hosts| ==> NoNewLine(hosts[i])
    ensures HostListOf(Some(HostFileText(hosts))) == hosts
  {
    LinesOfHostFile(hosts);
    var lines := Lines(HostFileText(hosts));
    forall i | 0 <= i < |hosts|
      ensures Chop(lines[i]) == hosts[i]
    {
      assert lines[i] == hosts[i] + [NewLine];
    }
  }

  /** Writing the empty list leaves a single newline, which reads back as
      one empty host. */
  lemma EmptyListReadsBlank()
    ensures HostFileText([]) == [NewLine]
    ensures HostListOf(Some(HostFileText([]))) == [""]
  {
    LinesCons([], []);
    assert [] + [NewLine] + [] == [NewLine];
  }

  /** A host read from the file never holds a newline. */
  lemma {:induction false} LinesNoNewLine(s: string)
    ensures forall i :: 0 <= i < |Lines(s)| ==> NoNewLine(Chop(Lines(s)[i]))
    decreases |s|
  {
    if s != [] {
      var n := LineLength(s);
      LinesNoNewLine(s[n..]);
      var lines := Lines(s);
      assert lines == [s[..n]] + Lines(s[n..]);
      assert Chop(lines[0]) == s[..n - 1];
      assert forall i :: 1 <= i < |lines| ==> lines[i] == Lines(s[n..])[i - 1];
    }
  }

  lemma HostListNoNewLine(file: Option<string>)
    ensures var hosts := HostListOf(file); forall i :: 0 <= i < |hosts| ==> NoNewLine(hosts[i])
  {
    if file.Some? {
      LinesNoNewLine(file.value);
    }
  }

  // ---------------------------------------------------------------------
  // The settings file

  /** The settings file `ip_list.conf` and the client's host. */
  class HostSettings {
    var ipFile: Option<string>
    var host: string
    const isIp: string -> bool

    constructor (ipFile: Option<string>, host: string, isIp: string -> bool)
      ensures this.ipFile == ipFile && this.host == host && this.isIp == isIp
    {
      this.ipFile := ipFile;
      this.host := host;
      this.isIp := isIp;
    }

    /** `read_host_list_from_file`. */
    method ReadHostListFromFile() returns (hostList: seq<string>)
      ensures hostList == HostListOf(ipFile)
    {
      hostList := [];
      if ipFile.Some? {
        var lines := Lines(ipFile.value);
        for i := 0 to |lines|
          invariant hostList == HostListOf(ipFile)[..i]
        {
          hostList := hostList + [Chop(lines[i])];
        }
      }
    }

    /** `write_host_list_to_file`. */
    method WriteHostListToFile(hostList: seq<string>)
      modifies this`ipFile
      ensures ipFile == Some(HostFileText(hostList))
    {
      ipFile := Some(Join(hostList) + [NewLine]);
    }

    /** `add_host_to_history`. */
    method AddHostToHistory(ip: string)
      modifies this`ipFile
      ensures ipFile == Some(HostFileText(MoveToFront(HostListOf(old(ipFile)), ip)))
    {
      var hostList := ReadHostListFromFile();
      if ip in hostList {
        hostList := RemoveFirst(hostList, ip);
      }
      hostList := [ip] + hostList;
      WriteHostListToFile(hostList);
    }

    /** `set_host_from_file`. */
    method SetHostFromFile()
      modifies this`host
      ensures host == HostAfterSet(old(host), HostListOf(ipFile), isIp)
    {
      var hostList := ReadHostListFromFile();
      if hostList != [] {
        if isIp(hostList[0]) {
          host := hostList[0];
        }
      }
    }
  }

  /** Adding a valid, newline-free ip to the history and then setting the
      host from the file makes that ip the host, whatever the file held
      before. */
  lemma AddThenSet(file: Option<string>, current: string, ip: string, isIp: string -> bool)
    requires NoNewLine(ip) && isIp(ip)
    ensures HostAfterSet(current, HostListOf(Some(HostFileText(MoveToFront(HostListOf(file), ip)))), isIp) == ip
  {
    var hosts := MoveToFront(HostListOf(file), ip);
    HostListNoNewLine(file);
    var old_ := if ip in HostListOf(file) then RemoveFirst(HostListOf(file), ip) else HostListOf(file);
    if ip in HostListOf(file) {
      RemoveFirstEffect(HostListOf(file), ip);
      forall h | h in old_ ensures NoNewLine(h) {
        assert h in multiset(old_);
      }
    }
    assert forall i :: 0 <= i < |hosts| ==> NoNewLine(hosts[i]) by {
      forall i | 0 <= i < |hosts| ensures NoNewLine(hosts[i]) {
        if i > 0 {
          assert hosts[i] == old_[i - 1];
          assert hosts[i] in old_;
        }
      }
    }
    HostFileRoundTrip(hosts);
  }
}
