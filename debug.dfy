// CheckNodeDebugNative (native/napi/debug.cpp): debug logging is switched
// on when the NODE_DEBUG_NATIVE variable lists "*" or "rocksdb" among its
// comma-separated tokens. The variable's value is an input here.

module Debug {
  import opened Common

  /**
   * The tokens std::getline(ss, token, ',') yields while ss.good() holds:
   * the pieces between commas, so k commas give k + 1 tokens (a trailing
   * comma gives a last, empty token).
   */
  function Tokens(s: string): (ts: seq<string>)
    ensures |ts| >= 1
  {
    if |s| == 0 then [""]
    else
      var rest := Tokens(s[1..]);
      if s[0] == ',' then [""] + rest
      else [[s[0]] + rest[0]] + rest[1..]
  }

  function Join(ts: seq<string>): string
    requires |ts| >= 1
  {
    if |ts| == 1 then ts[0] else ts[0] + "," + Join(ts[1..])
  }

  /** The tokens are the pieces of the text: joining them back gives it, and none holds a comma. */
  lemma {:induction false} TokensJoin(s: string)
    ensures Join(Tokens(s)) == s
    ensures forall i :: 0 <= i < |Tokens(s)| ==> ',' !in Tokens(s)[i]
  {
    if |s| > 0 {
      TokensJoin(s[1..]);
      var rest := Tokens(s[1..]);
      if s[0] == ',' {
        assert Join([""] + rest) == "" + "," + Join(rest) by {
          assert ([""] + rest)[1..] == rest;
        }
        assert s == [s[0]] + s[1..];
      } else {
        var ts := Tokens(s);
        assert ts[0] == [s[0]] + rest[0] && ts[1..] == rest[1..];
        if |rest| == 1 {
          assert s == [s[0]] + s[1..];
        } else {
          assert Join(rest) == rest[0] + "," + Join(rest[1..]);
          assert s == [s[0]] + s[1..];
        }
        forall i | 0 <= i < |ts| ensures ',' !in ts[i] {
          if i > 0 {
            assert ts[i] == rest[i];
          }
        }
      }
    }
  }

  /** The token test: exactly "*" or "rocksdb", untrimmed. */
  predicate Selects(token: string) {
    token == "*" || token == "rocksdb"
  }

  predicate Requested(s: string) {
    exists i :: 0 <= i < |Tokens(s)| && Selects(Tokens(s)[i])
  }

  /** The process-wide flag is_log_debug_enabled. */
  class DebugFlag {
    var isLogDebugEnabled: bool

    constructor ()
      ensures !isLogDebugEnabled
    {
      isLogDebugEnabled := false;
    }

    /** Scans the tokens and stops at the first one that selects logging. */
    method CheckNodeDebugNative(nodeDebugNative: Option<string>)
      modifies this
      ensures isLogDebugEnabled <==>
        old(isLogDebugEnabled) || (nodeDebugNative.Some? && Requested(nodeDebugNative.value))
    {
      if nodeDebugNative.None? {
        return;
      }
      var tokens := Tokens(nodeDebugNative.value);
      var i := 0;
      while i < |tokens|
        invariant 0 <= i <= |tokens|
        invariant isLogDebugEnabled == old(isLogDebugEnabled)
        invariant forall j :: 0 <= j < i ==> !Selects(tokens[j])
      {
        if Selects(tokens[i]) {
          isLogDebugEnabled := true;
          return;
        }
        i := i + 1;
      }
    }
  }

  /** Text without a comma is a single token. */
  lemma {:induction false} SingleToken(s: string)
    requires ',' !in s
    ensures Tokens(s) == [s]
  {
    if |s| > 0 {
      SingleToken(s[1..]);
      assert s == [s[0]] + s[1..];
    }
  }

  /** A comma after comma-free text splits off that text as the first token. */
  lemma {:induction false} FirstToken(a: string, b: string)
    requires ',' !in a
    ensures Tokens(a + "," + b) == [a] + Tokens(b)
  {
    if |a| == 0 {
      assert (a + "," + b)[1..] == b;
    } else {
      FirstToken(a[1..], b);
      assert (a + "," + b)[1..] == a[1..] + "," + b;
      assert a == [a[0]] + a[1..];
    }
  }

  /** Tokens are compared untrimmed: " rocksdb" is not a match. */
  lemma NoTrimming()
    ensures !Requested(" rocksdb")
  {
    var s := " rocksdb";
    SingleToken(s);
    assert s != "rocksdb" by {
      assert |s| != |"rocksdb"|;
    }
  }

  /** Comma-free tokens joined with commas are scanned back as exactly those tokens. */
  lemma {:induction false} JoinTokens(ts: seq<string>)
    requires |ts| >= 1
    requires forall i :: 0 <= i < |ts| ==> ',' !in ts[i]
    ensures Tokens(Join(ts)) == ts
  {
    if |ts| == 1 {
      SingleToken(ts[0]);
    } else {
      JoinTokens(ts[1..]);
      FirstToken(ts[0], Join(ts[1..]));
      assert ts == [ts[0]] + ts[1..];
    }
  }

  /** A list of comma-free module names selects logging iff one of them is "*" or "rocksdb", wherever it stands. */
  lemma ListSelects(ts: seq<string>)
    requires |ts| >= 1
    requires forall i :: 0 <= i < |ts| ==> ',' !in ts[i]
    ensures Requested(Join(ts)) <==> exists i :: 0 <= i < |ts| && Selects(ts[i])
  {
    JoinTokens(ts);
  }
}
