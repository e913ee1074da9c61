/**
 * The host extraction in `check_broker` (startup_healthcheck.py): the broker URL
 * is cut after its last "//" and before the first ':' that follows. The DNS lookup
 * of the result is not part of this model.
 */
module Healthcheck {
  import opened Strings

  function Last(pieces: seq<string>): string
    requires |pieces| >= 1
  {
    pieces[|pieces| - 1]
  }

  /** `url.split("//")[-1].split(":")[0]`. */
  function BrokerHost(url: string): (host: string)
    ensures ':' !in host
  {
    var tail := Last(SplitOn(url, "//"));
    SplitPiecesFree(tail, ":");
    ContainsChar(SplitOn(tail, ":")[0], ':');
    SplitOn(tail, ":")[0]
  }

  /** The host holds no ':' and no "//", and it is a prefix of the text after the
      URL's last "//". */
  lemma {:induction false} HostIsClean(url: string)
    ensures ':' !in BrokerHost(url)
    ensures !Contains(BrokerHost(url), "//")
    ensures StartsWith(Last(SplitOn(url, "//")), BrokerHost(url))
  {
    var tail := Last(SplitOn(url, "//"));
    var host := BrokerHost(url);
    SplitPiecesFree(url, "//");
    assert !Contains(tail, "//");
    SplitPiecesFree(tail, ":");
    assert !Contains(host, ":");
    ContainsChar(host, ':');
    FirstPieceIsPrefix(tail, ":");
    assert host == tail[..|host|];
    PrefixFree(tail, |host|, "//");
  }

  /** Splitting at "//" where the text before has no "//" of its own and does not
      end in '/': the first piece is that text. */
  lemma {:induction false} SplitAtFirstDoubleSlash(a: string, b: string)
    requires !Contains(a, "//") && (a == [] || a[|a| - 1] != '/')
    ensures SplitOn(a + ("//" + b), "//") == [a] + SplitOn(b, "//")
    decreases |a|
  {
    var s := a + ("//" + b);
    if a == [] {
      assert s == "//" + b;
      assert StartsWith(s, "//");
      assert s[2..] == b;
    } else {
      assert !StartsWith(s, "//") by {
        if |a| >= 2 {
          assert s[..2] == a[..2];
          assert !OccursAt(a, "//", 0);
        } else {
          assert s[1] == '/';
          assert s[0] == a[0] == a[|a| - 1] != '/';
        }
      }
      assert s[1..] == a[1..] + ("//" + b);
      assert !Contains(a[1..], "//") by {
        forall i | 0 <= i && i + 2 <= |a| - 1 ensures !OccursAt(a[1..], "//", i) {
          assert a[1..][i..i + 2] == a[i + 1..i + 3];
          assert !OccursAt(a, "//", i + 1);
        }
      }
      SplitAtFirstDoubleSlash(a[1..], b);
      var rest := SplitOn(s[1..], "//");
      assert rest[0] == a[1..];
      assert [s[0]] + rest[0] == a;
    }
  }

  /** "redis:" holds no "//". */
  lemma SchemePrefix()
    ensures !Contains("redis:", "//")
  {
    forall i | 0 <= i && i + 2 <= 6 ensures !OccursAt("redis:", "//", i) {
      assert "redis:"[i] != '/';
    }
  }

  /** The text after the "//" of a "redis:" URL whose rest has no "//". */
  lemma RedisUrlTail(rest: string)
    requires !Contains(rest, "//")
    ensures Last(SplitOn("redis:" + ("//" + rest), "//")) == rest
  {
    SchemePrefix();
    SplitAtFirstDoubleSlash("redis:", rest);
    SplitWithoutSeparator(rest, "//");
  }

  lemma DefaultUrlTail()
    ensures Last(SplitOn("redis://localhost:6379/0", "//")) == "localhost:6379/0"
  {
    var rest := "localhost:6379/0";
    assert "redis://localhost:6379/0" == "redis:" + ("//" + rest);
    NoDoubleSlash(rest);
    RedisUrlTail(rest);
  }

  lemma DefaultUrlCut()
    ensures SplitOn("localhost:6379/0", ":")[0] == "localhost"
  {
    assert "localhost:6379/0" == "localhost" + [':'] + "6379/0";
    FirstPieceBefore("localhost", ':', "6379/0");
  }

  /** The default broker URL "redis://localhost:6379/0" gives "localhost". */
  lemma DefaultUrlHost()
    ensures BrokerHost("redis://localhost:6379/0") == "localhost"
  {
    DefaultUrlTail();
    DefaultUrlCut();
  }

  /** Without a port the path stays attached: "redis://h/0" gives "h/0". */
  lemma PathStaysWithoutPort()
    ensures BrokerHost("redis://h/0") == "h/0"
  {
    assert "redis://h/0" == "redis:" + ("//" + "h/0");
    NoDoubleSlash("h/0");
    RedisUrlTail("h/0");
    ContainsChar("h/0", ':');
    SplitWithoutSeparator("h/0", ":");
  }

  /** A string with no two adjacent slashes. */
  lemma NoDoubleSlash(s: string)
    requires forall i :: 0 <= i < |s| - 1 ==> !(s[i] == '/' && s[i + 1] == '/')
    ensures !Contains(s, "//")
  {
    forall i | 0 <= i && i + 2 <= |s| ensures !OccursAt(s, "//", i) {
      assert s[i..i + 2] == [s[i], s[i + 1]];
    }
  }
}
