/**
 * The data rules of client/src/components/waitlist-form.tsx: the client-side form
 * schema, the interest check-box toggle, and the object `onSubmit` sends.
 */
module WaitlistForm {
  import opened Wrappers
  import opened Text
  import opened Json
  import opened Schema

  /** `WaitlistFormData`. */
  datatype FormData = FormData(
    fullName: string,
    email: string,
    referralSource: Option<string>,
    interests: Option<seq<string>>)

  const MaxClientEmailLength: nat := 255

  /** The client `waitlistSchema`: a name of 2 to 100 characters and a valid address of
      at most 255 characters. */
  predicate IsValidClientForm(data: FormData) {
    && 2 <= |data.fullName| <= 100
    && IsEmail(data.email)
    && |data.email| <= MaxClientEmailLength
  }

  // ---------------------------------------------------------------- toggleInterest

  /** `list.filter(i => i !== x)`. */
  function RemoveAll(list: seq<string>, x: string): (r: seq<string>)
    ensures x !in r
    ensures forall y :: y in r <==> y in list && y != x
    ensures |r| <= |list|
    ensures multiset(r)[x] == 0
    ensures forall y :: y != x ==> multiset(r)[y] == multiset(list)[y]
    ensures Subsequence(r, list)
  {
    if list == [] then []
    else
      assert list == [list[0]] + list[1..];
      var rest := RemoveAll(list[1..], x);
      if list[0] == x then rest
      else
        var r := [list[0]] + rest;
        assert r[1..] == rest;
        r
  }

  /** `sub` is `list` with some elements left out, the rest in their order. */
  predicate Subsequence(sub: seq<string>, list: seq<string>)
    decreases |list|
  {
    || sub == []
    || (&& list != []
        && ((sub[0] == list[0] && Subsequence(sub[1..], list[1..])) || Subsequence(sub, list[1..])))
  }

  /** `prev.includes(x) ? prev.filter(i => i !== x) : [...prev, x]`. */
  function ToggleInterest(prev: seq<string>, x: string): (r: seq<string>)
    ensures x in r <==> x !in prev
    ensures RemoveAll(r, x) == RemoveAll(prev, x)
    ensures x !in prev ==> |r| == |prev| + 1 && r[|r| - 1] == x && r[..|prev|] == prev
  {
    if x in prev then
      RemoveAllTwice(prev, x);
      RemoveAll(prev, x)
    else
      RemoveAllAppended(prev, x);
      prev + [x]
  }

  /** Filtering out `x` twice is filtering it once. */
  lemma {:induction false} RemoveAllTwice(list: seq<string>, x: string)
    ensures RemoveAll(RemoveAll(list, x), x) == RemoveAll(list, x)
  {
    if list != [] {
      RemoveAllTwice(list[1..], x);
      if list[0] != x {
        assert ([list[0]] + RemoveAll(list[1..], x))[1..] == RemoveAll(list[1..], x);
      }
    }
  }

  /** A filter that removes something absent keeps the list as it is. */
  lemma {:induction false} RemoveAllAbsent(list: seq<string>, x: string)
    requires x !in list
    ensures RemoveAll(list, x) == list
  {
    if list != [] {
      assert x !in list[1..];
      RemoveAllAbsent(list[1..], x);
      assert list == [list[0]] + list[1..];
    }
  }

  /** Appending `x` and then filtering it out loses nothing else. */
  lemma {:induction false} RemoveAllAppended(list: seq<string>, x: string)
    ensures RemoveAll(list + [x], x) == RemoveAll(list, x)
  {
    if list == [] {
      assert [x][1..] == [];
    } else {
      assert (list + [x])[1..] == list[1..] + [x];
      RemoveAllAppended(list[1..], x);
    }
  }

  /** Toggling an interest on and off again restores the original selection. */
  lemma ToggleTwiceRestores(prev: seq<string>, x: string)
    requires x !in prev
    ensures ToggleInterest(ToggleInterest(prev, x), x) == prev
  {
    RemoveAllAppended(prev, x);
    RemoveAllAbsent(prev, x);
  }

  /** No interest appears twice. */
  predicate NoDuplicates(list: seq<string>) {
    forall i, j :: 0 <= i < j < |list| ==> list[i] != list[j]
  }

  /** Filtering keeps a duplicate-free list duplicate-free. */
  lemma {:induction false} RemoveAllNoDuplicates(list: seq<string>, x: string)
    requires NoDuplicates(list)
    ensures NoDuplicates(RemoveAll(list, x))
  {
    if list != [] {
      assert NoDuplicates(list[1..]) by {
        forall i, j | 0 <= i < j < |list[1..]| ensures list[1..][i] != list[1..][j] {
          assert list[1..][i] == list[i + 1] && list[1..][j] == list[j + 1];
        }
      }
      RemoveAllNoDuplicates(list[1..], x);
      if list[0] != x {
        assert list[0] !in list[1..];
        var rest := RemoveAll(list[1..], x);
        assert list[0] !in rest;
        var r := [list[0]] + rest;
        forall i, j | 0 <= i < j < |r| ensures r[i] != r[j] {
          if i == 0 { assert r[j] == rest[j - 1]; } else { assert r[i] == rest[i - 1] && r[j] == rest[j - 1]; }
        }
      }
    }
  }

  /** A toggle keeps the selection free of duplicates. */
  lemma ToggleKeepsNoDuplicates(prev: seq<string>, x: string)
    requires NoDuplicates(prev)
    ensures NoDuplicates(ToggleInterest(prev, x))
  {
    if x in prev {
      RemoveAllNoDuplicates(prev, x);
    } else {
      var r := prev + [x];
      forall i, j | 0 <= i < j < |r| ensures r[i] != r[j] {
        if j == |prev| { assert r[i] == prev[i]; } else { assert r[i] == prev[i] && r[j] == prev[j]; }
      }
    }
  }

  // ---------------------------------------------------------------- onSubmit

  /** `{ ...data, interests: selectedInterests }`. */
  function OnSubmit(data: FormData, selected: seq<string>): (sent: FormData)
    ensures sent.interests == Some(selected)
    ensures sent.fullName == data.fullName && sent.email == data.email
    ensures sent.referralSource == data.referralSource
  {
    data.(interests := Some(selected))
  }

  /** The JSON body `apiRequest` sends: `JSON.stringify` drops the absent optional fields. */
  function FormBody(data: FormData): (body: Json)
    ensures body.JObj?
    ensures body.fields.Keys ==
              {"fullName", "email"}
              + (if data.referralSource.Some? then {"referralSource"} else {})
              + (if data.interests.Some? then {"interests"} else {})
    ensures body.fields["fullName"] == JStr(data.fullName)
    ensures body.fields["email"] == JStr(data.email)
    ensures data.referralSource.Some? ==>
              body.fields["referralSource"] == JStr(data.referralSource.value)
    ensures data.interests.Some? ==>
              body.fields["interests"] == JArr(Strings(data.interests.value))
  {
    var base := map["fullName" := JStr(data.fullName), "email" := JStr(data.email)];
    var withReferral :=
      if data.referralSource.Some? then base["referralSource" := JStr(data.referralSource.value)] else base;
    var withInterests :=
      if data.interests.Some? then withReferral["interests" := JArr(Strings(data.interests.value))]
      else withReferral;
    JObj(withInterests)
  }

  function Strings(list: seq<string>): (r: seq<Json>)
    ensures |r| == |list|
    ensures forall k :: 0 <= k < |list| ==> r[k] == JStr(list[k])
  {
    seq(|list|, k requires 0 <= k < |list| => JStr(list[k]))
  }

  /** A form the client accepts, once submitted, is accepted by the server's validator and
      arrives with its fields and the selected interests unchanged. */
  lemma ClientFormPassesServer(data: FormData, selected: seq<string>)
    requires IsValidClientForm(data)
    ensures ParseSignup(FormBody(OnSubmit(data, selected))) ==
              Ok(SignupInput(data.fullName, data.email, data.referralSource, Some(selected)))
  {
    var body := FormBody(OnSubmit(data, selected));
    assert AllStrings(body.fields["interests"].items);
    SignupValidatorExact(body);
    var input := ParseSignup(body).value;
    assert input.interests.value == selected;
  }

  /** The server sets no length limit on the address: a 256-character address that the
      client form refuses is accepted by the server's validator. */
  lemma ServerAcceptsLongerAddress()
    ensures var data := FormData("Jane Doe", seq(250, _ => 'a') + "@b.com", None, None);
            !IsValidClientForm(data) && ParseSignup(FormBody(data)).Ok?
  {
    var email := seq(250, _ => 'a') + "@b.com";
    var data := FormData("Jane Doe", email, None, None);
    assert email[..250] == seq(250, _ => 'a') && email[251..] == "b.com";
    assert EmailParts(email[..250], email[251..]) by {
      assert email[251..][1] == '.';
    }
    assert IsEmail(email) by { assert email[250] == '@'; }
    SignupValidatorExact(FormBody(data));
  }
}
