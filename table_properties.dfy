/**
 * What the handlers' effects on the customer table imply across several
 * requests: which lookups succeed afterwards, which fields survive, and when
 * ids stay unique.
 */
module TableProperties {

  import opened Wrappers
  import opened Json
  import opened Table

  /** The first match is the only index that matches with nothing matching before it. */
  lemma FirstMatchAt(s: seq<Record>, id: Option<int>, i: nat)
    requires i < |s| && Matches(s[i], id)
    requires forall j :: 0 <= j < i ==> !Matches(s[j], id)
    ensures FirstMatch(s, id) == Some(i)
  {
  }

  /** In a table with unique ids the record that matches is the one lookups find. */
  lemma UniqueFirstMatch(s: seq<Record>, id: Option<int>, i: nat)
    requires UniqueIds(s)
    requires i < |s| && Matches(s[i], id)
    ensures FirstMatch(s, id) == Some(i)
  {
  }

  /** A dense table has unique ids, and id k sits at index k - 1. */
  lemma DenseLookup(s: seq<Record>, k: int)
    requires Dense(s)
    ensures UniqueIds(s)
    ensures 1 <= k <= |s| ==> FirstMatch(s, Some(k)) == Some(k - 1)
    ensures !(1 <= k <= |s|) ==> FirstMatch(s, Some(k)) == None
  {
    if 1 <= k <= |s| {
      UniqueFirstMatch(s, Some(k), k - 1);
    } else {
      forall j | 0 <= j < |s|
        ensures !Matches(s[j], Some(k))
      {
        assert IdOf(s[j]) == Num(j + 1);
      }
    }
  }

  /** Creates alone keep a table dense, so without deletes ids never collide. */
  lemma CreateKeepsDense(s: seq<Record>, body: Record)
    requires Dense(s)
    ensures Dense(AfterCreate(s, body))
    ensures UniqueIds(AfterCreate(s, body))
  {
  }

  /**
   * Create keeps ids unique exactly when the table already had unique ids
   * and no record already carries the new id `length + 1`.
   */
  lemma CreateUniqueIff(s: seq<Record>, body: Record)
    ensures UniqueIds(AfterCreate(s, body)) <==>
      UniqueIds(s) && forall j :: 0 <= j < |s| ==> IdOf(s[j]) != Num(|s| + 1)
  {
  }

  /**
   * Get right after a create with id n = length + 1 finds the new record
   * exactly when no older record already has id n; otherwise it finds the older one.
   */
  lemma GetAfterCreate(s: seq<Record>, body: Record)
    ensures FirstMatch(AfterCreate(s, body), Some(|s| + 1)) == Some(|s|) <==>
      forall j :: 0 <= j < |s| ==> !Matches(s[j], Some(|s| + 1))
    ensures FirstMatch(AfterCreate(s, body), Some(|s| + 1)) == Some(|s|) ||
      FirstMatch(AfterCreate(s, body), Some(|s| + 1)) == FirstMatch(s, Some(|s| + 1))
  {
  }

  /** Delete keeps ids unique: it only removes a record. */
  lemma DeleteKeepsUniqueIds(s: seq<Record>, id: Option<int>)
    requires UniqueIds(s)
    ensures UniqueIds(AfterDelete(s, id))
  {
  }

  /** With unique ids, get after a delete of the same id is not found. */
  lemma GetAfterDelete(s: seq<Record>, id: Option<int>)
    requires UniqueIds(s)
    ensures FirstMatch(AfterDelete(s, id), id) == None
  {
  }

  /**
   * A table made of i records that do not match followed by the records of
   * u is searched as u is, shifted by i.
   */
  lemma FirstMatchShifted(t: seq<Record>, u: seq<Record>, i: nat, id: Option<int>)
    requires |t| == i + |u|
    requires forall j :: 0 <= j < i ==> !Matches(t[j], id)
    requires forall j :: 0 <= j < |u| ==> t[i + j] == u[j]
    ensures FirstMatch(u, id).None? ==> FirstMatch(t, id).None?
    ensures FirstMatch(u, id).Some? ==> FirstMatch(t, id) == Some(i + FirstMatch(u, id).value)
  {
    if FirstMatch(u, id).None? {
      forall j | i <= j < |t|
        ensures !Matches(t[j], id)
      {
        assert t[i + (j - i)] == u[j - i];
      }
    } else {
      var k := FirstMatch(u, id).value;
      forall j | i <= j < i + k
        ensures !Matches(t[j], id)
      {
        assert t[i + (j - i)] == u[j - i];
      }
      FirstMatchAt(t, id, i + k);
    }
  }

  /**
   * Get after a delete finds the next record with the same id, if there is
   * one: it is not found exactly when no later record carries that id.
   */
  lemma GetAfterDeleteFindsNextMatch(s: seq<Record>, id: Option<int>)
    requires FirstMatch(s, id).Some?
    ensures var i := FirstMatch(s, id).value;
      && (FirstMatch(s[i + 1..], id).None? ==> FirstMatch(AfterDelete(s, id), id).None?)
      && (FirstMatch(s[i + 1..], id).Some? ==>
            FirstMatch(AfterDelete(s, id), id) == Some(i + FirstMatch(s[i + 1..], id).value))
  {
    var i := FirstMatch(s, id).value;
    assert AfterDelete(s, id) == s[..i] + s[i + 1..];
    SpliceShift(s, i, id);
  }

  /** Cutting out index i, with no match before it, shifts the search of what follows by i. */
  lemma SpliceShift(s: seq<Record>, i: nat, id: Option<int>)
    requires i < |s|
    requires forall j :: 0 <= j < i ==> !Matches(s[j], id)
    ensures FirstMatch(s[i + 1..], id).None? ==> FirstMatch(s[..i] + s[i + 1..], id).None?
    ensures FirstMatch(s[i + 1..], id).Some? ==>
      FirstMatch(s[..i] + s[i + 1..], id) == Some(i + FirstMatch(s[i + 1..], id).value)
  {
    var u := s[i + 1..];
    var t := s[..i] + u;
    forall j | 0 <= j < i
      ensures !Matches(t[j], id)
    {
      assert t[j] == s[j];
    }
    FirstMatchShifted(t, u, i, id);
  }

  /**
   * Deleting id k from a dense table and then creating reuses an id that
   * is still live, unless k was the last id: ids stay unique exactly when
   * the deleted record was the last one.
   */
  lemma DeleteThenCreateUniqueIff(s: seq<Record>, k: int, body: Record)
    requires Dense(s) && 1 <= k <= |s|
    ensures var t := AfterCreate(AfterDelete(s, Some(k)), body);
      && |t| == |s|
      && IdOf(t[|s| - 1]) == Num(|s|)
      && (UniqueIds(t) <==> k == |s|)
      && (k < |s| ==> IdOf(t[|s| - 2]) == Num(|s|))
  {
    DenseLookup(s, k);
    var u := AfterDelete(s, Some(k));
    var t := AfterCreate(u, body);
    assert |u| == |s| - 1;
    if k < |s| {
      assert u[|s| - 2] == s[|s| - 1];
      assert t[|s| - 2] == u[|s| - 2];
      assert IdOf(t[|s| - 2]) == IdOf(t[|s| - 1]);
    } else {
      assert u == s[..|s| - 1];
      assert Dense(u);
      CreateKeepsDense(u, body);
    }
  }

  /**
   * After a create has reused a live id, get on that id keeps resolving to
   * the older record and never reaches the new one.
   */
  lemma DuplicateIdResolvesToOlder(s: seq<Record>, k: int, body: Record)
    requires Dense(s) && 1 <= k < |s|
    ensures var t := AfterCreate(AfterDelete(s, Some(k)), body);
      FirstMatch(t, Some(|s|)) == Some(|s| - 2) && t[|s| - 2] == s[|s| - 1]
  {
    DenseLookup(s, k);
    DeleteThenCreateUniqueIff(s, k, body);
    var u := AfterDelete(s, Some(k));
    var t := AfterCreate(u, body);
    forall j | 0 <= j < |s| - 2
      ensures !Matches(t[j], Some(|s|))
    {
      var j' := if j < k - 1 then j else j + 1;
      assert t[j] == u[j] == s[j'];
      assert IdOf(s[j']) == Num(j' + 1);
    }
    FirstMatchAt(t, Some(|s|), |s| - 2);
  }

  /** Update without an id in the body keeps ids unique. */
  lemma UpdateKeepsUniqueIds(s: seq<Record>, id: Option<int>, body: Record)
    requires UniqueIds(s) && "id" !in body
    ensures UniqueIds(AfterUpdate(s, id, body))
  {
  }

  /**
   * Update then get: when the body carries no id the same record is found
   * again and it is the merge; when it does carry one the stored id is the body's.
   */
  lemma GetAfterUpdate(s: seq<Record>, id: Option<int>, body: Record)
    requires FirstMatch(s, id).Some?
    ensures var i := FirstMatch(s, id).value;
      var t := AfterUpdate(s, id, body);
      && ("id" !in body ==> FirstMatch(t, id) == Some(i) && t[i] == Merge(s[i], body))
      && ("id" in body ==> IdOf(t[i]) == body["id"])
  {
  }

  /** An update whose body has no id is idempotent: repeating the same PUT changes nothing more. */
  lemma UpdateIdempotent(s: seq<Record>, id: Option<int>, body: Record)
    requires "id" !in body
    ensures AfterUpdate(AfterUpdate(s, id, body), id, body) == AfterUpdate(s, id, body)
  {
    if FirstMatch(s, id).Some? {
      var i := FirstMatch(s, id).value;
      GetAfterUpdate(s, id, body);
      MergeIdempotent(s[i], body);
    }
  }

  /**
   * A created customer, once serialised, has its id and exactly those of
   * nome, telefone and email that the body defines; nothing else of the body.
   */
  lemma CreatedResponseFields(n: int, body: Record)
    ensures var j := Serialize(NewCliente(n, body));
      forall k :: k in j <==> k == "id" || (k in CreateFields && k in body && body[k] != Undefined)
  {
  }

  /**
   * A customer created without an email is listed without an email key:
   * in the serialised listing the new last record has none.
   */
  lemma ListedWithoutEmail(s: seq<Record>, body: Record)
    requires "email" !in body
    ensures var listing := SerializeAll(AfterCreate(s, body));
      && |listing| == |s| + 1
      && "email" !in listing[|s|]
      && "id" in listing[|s|] && listing[|s|]["id"] == Num(|s| + 1)
  {
  }
}
