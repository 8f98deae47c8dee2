/** The ACL filters shared by four stages (pruneExport.py:121-125, :167-171,
    :314-318, :324-328): an entry survives when `object_id.split(prefix)[1]`, the
    text between the first occurrence of a fixed prefix and the next one (or the
    end), belongs to the keep-set of the stage that owns it. */
module Acls {
  import opened Base
  import opened Strings
  import opened Records

  /** `object_id.split(prefix)[1]`; None stands for the IndexError raised when the
      prefix does not occur. */
  function AclKey(a: Acl, prefix: string): (key: Option<string>)
    requires prefix != []
  {
    Part(a.objectId, prefix, 1)
  }

  /** What `int(object_id.split(prefix)[1])` yields: an IndexError, a ValueError or
      an integer. */
  datatype NumericKey = NoPrefix | NotAnInteger | Id(id: int)

  function ReadNumericKey(a: Acl, prefix: string): (k: NumericKey)
    requires prefix != []
  {
    match AclKey(a, prefix)
    case None => NoPrefix
    case Some(key) =>
      match ParseInt(key)
      case None => NotAnInteger
      case Some(n) => Id(n)
  }

  /** `int(object_id.split(prefix)[1])` raises nothing. */
  predicate HasNumericKey(a: Acl, prefix: string)
    requires prefix != []
  {
    ReadNumericKey(a, prefix).Id?
  }

  /** `int(object_id.split(prefix)[1])`. */
  function AclId(a: Acl, prefix: string): (id: int)
    requires prefix != [] && HasNumericKey(a, prefix)
  {
    ReadNumericKey(a, prefix).id
  }

  // ---------------------------------------------------------------------------
  // Entries whose key is compared as a string (cluster ACLs).

  /** The entry has the prefix and its key is in `keep`. */
  predicate KeyKept(a: Acl, prefix: string, keep: seq<string>)
    requires prefix != []
  {
    AclKey(a, prefix).Some? && AclKey(a, prefix).value in keep
  }

  /** The entries of `acls` whose key is in `keep`, in order; the first entry without
      the prefix raises IndexError instead. */
  function KeptAclsByName(acls: seq<Acl>, prefix: string, keep: seq<string>, log: string): (r: Result<seq<Acl>>)
    requires prefix != []
    decreases |acls|
    ensures r.Ok? <==> forall a :: a in acls ==> AclKey(a, prefix).Some?
    ensures r.Ok? ==> IsSubsequence(r.value, acls)
    ensures r.Ok? ==> forall a :: a in r.value <==> a in acls && AclKey(a, prefix).Some? && AclKey(a, prefix).value in keep
    ensures r.Ok? ==> forall a :: multiset(r.value)[a] == if KeyKept(a, prefix, keep) then multiset(acls)[a] else 0
    ensures r.Err? ==> r.error.IndexError? && r.error.log == log && r.error.record < |acls|
    ensures r.Err? ==> AclKey(acls[r.error.record], prefix).None? &&
                       forall j :: 0 <= j < r.error.record ==> AclKey(acls[j], prefix).Some?
  {
    if acls == [] then Ok([])
    else
      var init, last := acls[..|acls| - 1], acls[|acls| - 1];
      assert forall j :: 0 <= j < |init| ==> acls[j] == init[j];
      assert forall a :: a in acls <==> a in init || a == last;
      MultisetSnoc(acls);
      match KeptAclsByName(init, prefix, keep, log)
      case Err(e) => Err(e)
      case Ok(kept) =>
        match AclKey(last, prefix)
        case None => Err(IndexError(log, |acls| - 1))
        case Some(key) =>
          if key in keep then
            SubsequenceKeep(kept, acls);
            Ok(kept + [last])
          else
            SubsequenceSkip(kept, acls);
            Ok(kept)
  }

  /** Once a prefix of the log raises, so does the whole log, with the same error. */
  lemma {:induction false} KeptAclsByNameFailsEarly(acls: seq<Acl>, prefix: string, keep: seq<string>, log: string, n: nat)
    requires prefix != [] && n <= |acls|
    requires KeptAclsByName(acls[..n], prefix, keep, log).Err?
    ensures KeptAclsByName(acls, prefix, keep, log) == KeptAclsByName(acls[..n], prefix, keep, log)
    decreases |acls|
  {
    if n < |acls| {
      var init := acls[..|acls| - 1];
      assert init[..n] == acls[..n];
      KeptAclsByNameFailsEarly(init, prefix, keep, log, n);
    } else {
      assert acls[..n] == acls;
    }
  }

  /** The loop of lines 122-125. */
  method FilterAclsByName(acls: seq<Acl>, prefix: string, keep: seq<string>, log: string) returns (r: Result<seq<Acl>>)
    requires prefix != []
    ensures r == KeptAclsByName(acls, prefix, keep, log)
  {
    var kept := [];
    for i := 0 to |acls|
      invariant KeptAclsByName(acls[..i], prefix, keep, log) == Ok(kept)
    {
      assert acls[..i + 1][..i] == acls[..i];
      var key := Part(acls[i].objectId, prefix, 1);
      if key.None? {
        KeptAclsByNameFailsEarly(acls, prefix, keep, log, i + 1);
        return Err(IndexError(log, i));
      }
      if key.value in keep {
        kept := kept + [acls[i]];
      }
    }
    assert acls[..|acls|] == acls;
    r := Ok(kept);
  }

  // ---------------------------------------------------------------------------
  // Entries whose key is compared as an integer (job, directory and notebook ACLs).

  /** The entry's key reads as an integer that is in `keep`. */
  predicate IdKept(a: Acl, prefix: string, keep: seq<int>)
    requires prefix != []
  {
    HasNumericKey(a, prefix) && AclId(a, prefix) in keep
  }

  /** Entry `k` is the first whose key is missing or not an integer. */
  predicate FirstMalformed(acls: seq<Acl>, prefix: string, k: nat)
    requires prefix != []
  {
    k < |acls| && !HasNumericKey(acls[k], prefix) &&
    forall j :: 0 <= j < k ==> HasNumericKey(acls[j], prefix)
  }

  /** The entries of `acls` whose key, read as an integer, is in `keep`, in order; the
      first entry without the prefix raises IndexError, the first whose key is not an
      integer raises ValueError. */
  function KeptAclsById(acls: seq<Acl>, prefix: string, keep: seq<int>, log: string): (r: Result<seq<Acl>>)
    requires prefix != []
    decreases |acls|
    ensures r.Ok? <==> forall a :: a in acls ==> HasNumericKey(a, prefix)
    ensures r.Ok? ==> forall a :: a in r.value <==> a in acls && HasNumericKey(a, prefix) && AclId(a, prefix) in keep
    ensures r.Ok? ==> forall a :: multiset(r.value)[a] == if IdKept(a, prefix, keep) then multiset(acls)[a] else 0
    ensures r.Err? ==> (r.error.IndexError? || r.error.ValueError?) && r.error.log == log && r.error.record < |acls|
    ensures r.Err? ==> FirstMalformed(acls, prefix, r.error.record)
    ensures r.Err? ==> (r.error.IndexError? <==> ReadNumericKey(acls[r.error.record], prefix).NoPrefix?)
  {
    if acls == [] then Ok([])
    else
      var init, last := acls[..|acls| - 1], acls[|acls| - 1];
      assert forall j :: 0 <= j < |init| ==> acls[j] == init[j];
      assert forall a :: a in acls <==> a in init || a == last;
      MultisetSnoc(acls);
      match KeptAclsById(init, prefix, keep, log)
      case Err(e) => Err(e)
      case Ok(kept) =>
        match ReadNumericKey(last, prefix)
        case NoPrefix =>
          assert last in acls && !HasNumericKey(last, prefix);
          Err(IndexError(log, |acls| - 1))
        case NotAnInteger =>
          assert last in acls && !HasNumericKey(last, prefix);
          Err(ValueError(log, |acls| - 1))
        case Id(id) =>
          if id in keep then Ok(kept + [last]) else Ok(kept)
  }

  /** The surviving entries keep their order in the log. */
  lemma {:induction false} KeptAclsByIdInOrder(acls: seq<Acl>, prefix: string, keep: seq<int>, log: string)
    requires prefix != []
    requires KeptAclsById(acls, prefix, keep, log).Ok?
    ensures IsSubsequence(KeptAclsById(acls, prefix, keep, log).value, acls)
    decreases |acls|
  {
    if acls != [] {
      var init := acls[..|acls| - 1];
      KeptAclsByIdInOrder(init, prefix, keep, log);
      var kept := KeptAclsById(init, prefix, keep, log).value;
      if AclId(acls[|acls| - 1], prefix) in keep {
        SubsequenceKeep(kept, acls);
      } else {
        SubsequenceSkip(kept, acls);
      }
    }
  }

  /** Once a prefix of the log raises, so does the whole log, with the same error. */
  lemma {:induction false} KeptAclsByIdFailsEarly(acls: seq<Acl>, prefix: string, keep: seq<int>, log: string, n: nat)
    requires prefix != [] && n <= |acls|
    requires KeptAclsById(acls[..n], prefix, keep, log).Err?
    ensures KeptAclsById(acls, prefix, keep, log) == KeptAclsById(acls[..n], prefix, keep, log)
    decreases |acls|
  {
    if n < |acls| {
      var init := acls[..|acls| - 1];
      assert init[..n] == acls[..n];
      KeptAclsByIdFailsEarly(init, prefix, keep, log, n);
    } else {
      assert acls[..n] == acls;
    }
  }

  /** The loops of lines 168-171, 315-318 and 325-328. */
  method FilterAclsById(acls: seq<Acl>, prefix: string, keep: seq<int>, log: string) returns (r: Result<seq<Acl>>)
    requires prefix != []
    ensures r == KeptAclsById(acls, prefix, keep, log)
  {
    var kept := [];
    for i := 0 to |acls|
      invariant KeptAclsById(acls[..i], prefix, keep, log) == Ok(kept)
    {
      assert acls[..i + 1][..i] == acls[..i];
      var key := Part(acls[i].objectId, prefix, 1);
      if key.None? {
        KeptAclsByIdFailsEarly(acls, prefix, keep, log, i + 1);
        return Err(IndexError(log, i));
      }
      var id := ParseInt(key.value);
      if id.None? {
        KeptAclsByIdFailsEarly(acls, prefix, keep, log, i + 1);
        return Err(ValueError(log, i));
      }
      assert ReadNumericKey(acls[i], prefix) == Id(id.value);
      if id.value in keep {
        kept := kept + [acls[i]];
      }
    }
    assert acls[..|acls|] == acls;
    r := Ok(kept);
  }

  // ---------------------------------------------------------------------------
  // Entries as the exporter writes them: `object_id` = prefix + identifier.

  /** An entry `<prefix><key>` whose key does not repeat the prefix has key `key`. */
  lemma KeyOfPrefixed(prefix: string, key: string)
    requires prefix != [] && !Contains(prefix, key)
    ensures AclKey(Acl(prefix + key), prefix) == Some(key)
  {
    SplitLeading(prefix, key);
    SplitWithout(key, prefix);
  }

  /** An entry `<prefix><str(n)>`, for a prefix starting with a character that is
      neither a digit nor a minus sign, has identifier `n` when `n` has at most
      MaxIntDigits digits, and raises ValueError otherwise. */
  lemma IdOfPrefixed(prefix: string, n: int)
    requires prefix != [] && !IsDigit(prefix[0]) && prefix[0] != '-'
    ensures HasNumericKey(Acl(prefix + IntToString(n)), prefix) <==> DigitCount(n) <= MaxIntDigits
    ensures HasNumericKey(Acl(prefix + IntToString(n)), prefix) ==> AclId(Acl(prefix + IntToString(n)), prefix) == n
  {
    var key := IntToString(n);
    IntToStringChars(n);
    assert prefix[0] !in key;
    MissingCharNotContained(prefix, key, 0);
    KeyOfPrefixed(prefix, key);
    ParseIntToString(n);
  }
}
