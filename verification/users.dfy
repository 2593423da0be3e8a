/**
 The synthetic user records served by the fiber example in main.go: the
 `User` record and `getUsers`, which fills a fixed array of 1000 records, one
 slot per index, and hands the whole array back as a slice.
 */
module Users {
  import opened Decimal

  /** One synthetic record; the fields are those of the `User` struct. */
  datatype User = User(id: int, age: int, firstName: string, lastName: string, framework: string)

  /** Length of the fixed array `getUsers` fills. */
  const Count: nat := 1000
  const Age: int := 25
  const FirstNamePrefix: string := "First_name"
  const LastNamePrefix: string := "Last_Name"
  const FrameworkLabel: string := "Golang (fiber)  "

  /** Go's zero value of `User`, which every slot of a fresh array holds. */
  const ZeroUser: User := User(0, 0, "", "", "")

  /** `name` is `prefix` followed by a canonical decimal. */
  predicate HasDecimalSuffix(name: string, prefix: string) {
    |name| > |prefix| && name[..|prefix|] == prefix && IsCanonical(name[|prefix|..])
  }

  /**
   The record `getUsers` writes into slot `i`: identifier `i`, the constant age
   and framework label, and two names that carry the same decimal after their
   own labels.
   */
  function ExpectedUser(i: nat): (u: User)
    ensures u.id == i && u.age == Age && u.framework == FrameworkLabel
    ensures HasDecimalSuffix(u.firstName, FirstNamePrefix)
    ensures HasDecimalSuffix(u.lastName, LastNamePrefix)
    ensures u.firstName[|FirstNamePrefix|..] == u.lastName[|LastNamePrefix|..]
  {
    var digits := Itoa(i);
    assert (FirstNamePrefix + digits)[|FirstNamePrefix|..] == digits;
    assert (LastNamePrefix + digits)[|LastNamePrefix|..] == digits;
    User(i, Age, FirstNamePrefix + digits, LastNamePrefix + digits, FrameworkLabel)
  }

  /**
   The first name of record `i` is the label followed by a canonical decimal
   that reads back as `i`: the index can be recovered from the name alone.
   */
  lemma FirstNameEncodesId(i: nat)
    ensures var name := ExpectedUser(i).firstName;
      HasDecimalSuffix(name, FirstNamePrefix) && Atoi(name[|FirstNamePrefix|..]) == i
  {
    var name := ExpectedUser(i).firstName;
    assert name[|FirstNamePrefix|..] == Itoa(i);
    AtoiItoa(i);
  }

  /** The same for the last name, which has its own label. */
  lemma LastNameEncodesId(i: nat)
    ensures var name := ExpectedUser(i).lastName;
      HasDecimalSuffix(name, LastNamePrefix) && Atoi(name[|LastNamePrefix|..]) == i
  {
    var name := ExpectedUser(i).lastName;
    assert name[|LastNamePrefix|..] == Itoa(i);
    AtoiItoa(i);
  }

  /** Distinct indices give distinct first names and distinct last names. */
  lemma ExpectedUserNamesDistinct(i: nat, j: nat)
    requires i != j
    ensures ExpectedUser(i).firstName != ExpectedUser(j).firstName
    ensures ExpectedUser(i).lastName != ExpectedUser(j).lastName
  {
    FirstNameEncodesId(i);
    FirstNameEncodesId(j);
    LastNameEncodesId(i);
    LastNameEncodesId(j);
  }

  /** Every index of the array renders to between one and three digits. */
  lemma IndexDigits(i: nat)
    requires i < Count
    ensures 1 <= |Itoa(i)| <= 3
  {
    assert Pow10(3) == 1000;
    ItoaLength(i, 3);
  }

  /**
   `getUsers`: fill a fresh `[1000]User` array slot by slot, then return all of
   it. The slice handed back is modelled as the sequence of the array's elements.
   */
  method GetUsers() returns (users: seq<User>)
    ensures |users| == Count
    ensures forall i :: 0 <= i < |users| ==> users[i] == ExpectedUser(i)
    ensures forall i, j :: 0 <= i < j < |users| ==>
      users[i].id < users[j].id &&
      users[i].firstName != users[j].firstName &&
      users[i].lastName != users[j].lastName
  {
    var a := new User[Count](_ => ZeroUser);
    for i := 0 to Count
      invariant forall k :: 0 <= k < i ==> a[k] == ExpectedUser(k)
      invariant forall k :: i <= k < Count ==> a[k] == ZeroUser
    {
      var stringIndex := Itoa(i);
      a[i] := User(i, Age, FirstNamePrefix + stringIndex, LastNamePrefix + stringIndex, FrameworkLabel);
    }
    users := a[..];
    forall i, j | 0 <= i < j < |users|
      ensures users[i].firstName != users[j].firstName && users[i].lastName != users[j].lastName
    {
      ExpectedUserNamesDistinct(i, j);
    }
  }
}
