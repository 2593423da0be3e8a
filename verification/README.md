# Synthetic user records of the fiber benchmark server

This project models the data side of a small Go HTTP benchmark server built on
the fiber framework. Its one endpoint, `GET /api/v1/users`, answers with the
records produced by `getUsers`. That function declares a fixed array of 1000
`User` values. A counting loop writes slot `i` with identifier `i`, age 25, the
first name `"First_name"` followed by the decimal form of `i`, the last name
`"Last_Name"` followed by the same decimal form, and the framework label
`"Golang (fiber)  "` (two trailing spaces). The whole array is then returned as
a slice.

The model has two modules:

- `Decimal` (decimal.dfy) is `strconv.Itoa` for non-negative integers. `Itoa` emits
  the digits recursively. `Atoi` reads a digit string back as the number it
  denotes and serves as the reference definition. The lemmas prove that the two
  are inverse on canonical decimals: non-empty, digits only, no leading zero
  except in `"0"`. So the rendering is injective, and its length is fixed by
  the number's magnitude.
- `Users` (users.dfy) holds the `User` record, the per-slot specification
  `ExpectedUser(i)`, and `GetUsers`. `GetUsers` fills an `array<User>` in place
  with the same loop as the source. Every slot starts as Go's zero value of
  `User`. The loop invariant says that slots below the loop index hold their
  specified records and slots at or above it are still untouched.

## Model

| member | source | states |
|---|---|---|
| `Decimal.Itoa` | main.go:27 | the rendering of any n >= 0 is non-empty and made only of the characters '0'..'9'; it starts with '0' exactly when n is 0, so there is no leading zero |
| `Decimal.AtoiItoa` | main.go:27 | reading back the rendering of n gives n |
| `Decimal.ItoaAtoi` | main.go:27 | every canonical decimal is the rendering of the number it denotes, so the renderings are exactly the canonical decimals |
| `Decimal.ItoaInjective` | main.go:27 | two numbers have the same rendering if and only if they are equal |
| `Decimal.ItoaLengthBounds` | main.go:27 | a rendering of L characters denotes a number below 10^L and, unless it is 0, at least 10^(L-1) |
| `Decimal.ItoaLength` | main.go:27 | for k >= 1, the rendering of n has at most k characters if and only if n < 10^k |
| `Users.User` | main.go:14-20 | the record type: an integer identifier, an integer age, a first name, a last name and a framework label |
| `Users.ExpectedUser` | main.go:26-34 | the record for slot i has identifier i, age 25 and the framework label "Golang (fiber)  "; its first name is "First_name" and its last name "Last_Name", each followed by a canonical decimal, and both carry the same decimal |
| `Users.IndexDigits` | main.go:26-27 | every index of the 1000-slot array renders to one, two or three digits |
| `Users.FirstNameEncodesId` | main.go:27-31 | the first name of record i is "First_name" followed by a canonical decimal that reads back as i |
| `Users.LastNameEncodesId` | main.go:27-32 | the last name of record i is "Last_Name" followed by a canonical decimal that reads back as i |
| `Users.ExpectedUserNamesDistinct` | main.go:26-32 | records at distinct indices have distinct first names and distinct last names |
| `Users.GetUsers` | main.go:23-39 | returns exactly 1000 records; record i is `ExpectedUser(i)`, with identifier i, age 25, both names built from the decimal of i, and the label "Golang (fiber)  "; identifiers strictly increase, and first names and last names are pairwise distinct |

## Left out

- `main` (main.go:41-61) is not modelled: it builds the fiber app, registers the route and listens on port 3000. All of that is network I/O inside a library that is not part of this model.
- JSON serialisation of the records by `c.JSON` (main.go:57) is not modelled. It is a library call whose output format is not part of this model.
- The goroutine that prints `runtime.NumGoroutine()` once a second (main.go:44-49) is not modelled. It is an endless logging loop with no effect on the response.
- The weighted semaphore sized by `runtime.GOMAXPROCS(0)` (main.go:51-52, 55-56) is not modelled. It only bounds concurrent handlers, and `golang.org/x/sync/semaphore` is not part of this model. The error that `sem.Acquire` can return is ignored by the source; it cannot occur because `context.TODO()` is never cancelled.
- `Decimal.Itoa` renders only non-negative integers. It does not model the minus sign `strconv.Itoa` writes for negative values, because `getUsers` only passes indices 0 to 999.
- Go's fixed-width `int` is modelled as Dafny's unbounded `int`/`nat`. Every value involved is below 1000, so there is no overflow.
- `Users.GetUsers` returns the slice `users[:]` as a sequence value. In Go the slice shares storage with the local array, but nothing else refers to that array, so this sharing cannot be observed.
- The repository's second server variant is not modelled. This model follows main.go, where identifiers start at 0 (main.go:26-29).
- Go strings are byte strings, while a Dafny `string` is a sequence of characters. Every character in the labels and digits here is ASCII, so contents and lengths agree.
