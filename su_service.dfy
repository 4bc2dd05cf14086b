/** The helper process's side of the privileged binder: the security-context
    label it reports, sanitised to the characters `[a-z0-9:_,]`. */
module SuService {
  import opened Wrappers

  /** A character the regular expression `[^a-z0-9:_,]` does not match. */
  predicate IsContextChar(c: char)
  {
    ('a' <= c <= 'z') || ('0' <= c <= '9') || c == ':' || c == '_' || c == ','
  }

  predicate AllContextChars(s: string)
  {
    forall i :: 0 <= i < |s| ==> IsContextChar(s[i])
  }

  /** `replace("[^a-z0-9:_,]".toRegex(), "")`: every character outside the
      allow-list is deleted. */
  function Sanitize(s: string): (r: string)
    ensures AllContextChars(r)
    ensures |r| <= |s|
  {
    if s == [] then []
    else (if IsContextChar(s[0]) then [s[0]] else []) + Sanitize(s[1..])
  }

  /** The sentinel `safe` falls back to. */
  const Unknown: string := "unknown"

  /** `safe(default) { block }`: the block's value, or `default` if it threw. */
  function Safe<T>(default: T, block: Attempt<T>): T
  {
    match block
    case Returned(v) => v
    case Threw => default
  }

  /** The fallback label is already made of allowed characters. */
  lemma UnknownIsClean()
    ensures AllContextChars(Unknown) && Sanitize(Unknown) == Unknown
  {
    assert AllContextChars(Unknown) by {
      forall i | 0 <= i < |Unknown| ensures IsContextChar(Unknown[i]) {
        assert Unknown[i] in "unkow";
      }
    }
    SanitizeFixpoint(Unknown);
  }

  /** `getContextImpl()`: `read` is the outcome of reading `/proc/self/attr/current`. */
  function GetContextImpl(read: Attempt<string>): (ctx: string)
    ensures read.Threw? ==> ctx == Unknown
    ensures read.Returned? ==> ctx == Sanitize(read.value)
    ensures AllContextChars(ctx) && Sanitize(ctx) == ctx
  {
    UnknownIsClean();
    var ctx := Safe(Unknown, match read case Returned(text) => Returned(Sanitize(text)) case Threw => Threw);
    SanitizeIdempotent(if read.Returned? then read.value else Unknown);
    ctx
  }

  /** Sanitising commutes with concatenation: the filter works character by character. */
  lemma {:induction false} SanitizeAppend(a: string, b: string)
    ensures Sanitize(a + b) == Sanitize(a) + Sanitize(b)
  {
    if a == [] {
      assert a + b == b;
    } else {
      assert (a + b)[1..] == a[1..] + b;
      SanitizeAppend(a[1..], b);
    }
  }

  /** A string is left unchanged exactly when it already uses only allowed characters. */
  lemma {:induction false} SanitizeFixpoint(s: string)
    ensures Sanitize(s) == s <==> AllContextChars(s)
  {
    if s != [] && AllContextChars(s) {
      assert AllContextChars(s[1..]) by {
        forall i | 0 <= i < |s[1..]| ensures IsContextChar(s[1..][i]) {
          assert s[1..][i] == s[i + 1];
        }
      }
      SanitizeFixpoint(s[1..]);
    }
  }

  lemma SanitizeIdempotent(s: string)
    ensures Sanitize(Sanitize(s)) == Sanitize(s)
  {
    SanitizeFixpoint(Sanitize(s));
  }

  /** Every allowed character keeps its number of occurrences; every other one disappears. */
  lemma {:induction false} SanitizeCount(s: string, c: char)
    ensures multiset(Sanitize(s))[c] == if IsContextChar(c) then multiset(s)[c] else 0
  {
    if s != [] {
      SanitizeCount(s[1..], c);
      assert s == [s[0]] + s[1..];
    }
  }

  /** `r` can be obtained from `s` by deleting characters (greedy matching decides it). */
  predicate IsSubsequence(r: string, s: string)
    decreases |s|
  {
    if r == [] then true
    else if s == [] then false
    else if r[0] == s[0] then IsSubsequence(r[1..], s[1..])
    else IsSubsequence(r, s[1..])
  }

  /** The kept characters appear in their original order. */
  lemma {:induction false} SanitizeIsSubsequence(s: string)
    ensures IsSubsequence(Sanitize(s), s)
  {
    if s != [] {
      SanitizeIsSubsequence(s[1..]);
      var r := Sanitize(s);
      if !IsContextChar(s[0]) {
        assert r == Sanitize(s[1..]);
        assert r != [] ==> IsContextChar(r[0]);
      } else {
        assert r == [s[0]] + Sanitize(s[1..]);
      }
    }
  }

  lemma {:induction false} AllowedSubsequenceBound(r: string, s: string)
    requires IsSubsequence(r, s) && AllContextChars(r)
    ensures |r| <= |Sanitize(s)|
    decreases |s|
  {
    if r != [] {
      if r[0] == s[0] {
        assert AllContextChars(r[1..]) by {
          forall i | 0 <= i < |r[1..]| ensures IsContextChar(r[1..][i]) {
            assert r[1..][i] == r[i + 1];
          }
        }
        AllowedSubsequenceBound(r[1..], s[1..]);
      } else {
        AllowedSubsequenceBound(r, s[1..]);
      }
    }
  }

  /** The sanitised label is the one longest subsequence of `s` made of allowed
      characters: any other subsequence of allowed characters that long equals it. */
  lemma {:induction false} SanitizeIsLongestAllowedSubsequence(r: string, s: string)
    requires IsSubsequence(r, s) && AllContextChars(r)
    ensures |r| <= |Sanitize(s)|
    ensures |r| == |Sanitize(s)| ==> r == Sanitize(s)
    decreases |s|
  {
    AllowedSubsequenceBound(r, s);
    if r != [] && |r| == |Sanitize(s)| {
      if r[0] == s[0] {
        assert AllContextChars(r[1..]) by {
          forall i | 0 <= i < |r[1..]| ensures IsContextChar(r[1..][i]) {
            assert r[1..][i] == r[i + 1];
          }
        }
        SanitizeIsLongestAllowedSubsequence(r[1..], s[1..]);
      } else {
        AllowedSubsequenceBound(r, s[1..]);
        SanitizeIsLongestAllowedSubsequence(r, s[1..]);
      }
    }
  }
}
