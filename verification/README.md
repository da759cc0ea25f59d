# MovieApi service core in Dafny

A model of the two request handlers of the MovieApi backend that hold its
behaviour:

- **The movie service** (`MovieServiceImpl`). It adds, reads, lists, updates
  and deletes movie rows. Each row names a poster file kept in the poster
  directory, and every response adds the poster URL
  `baseUrl + "/file/" + poster`. In the model, class `Movies.MovieService`
  holds the movie repository as `rows: map<int, Movie>` and the poster
  directory as `files`, the set of paths present in it. It also holds the
  configured `path` and `baseUrl`.
- **The forgot-password flow** (`ForgotPasswordController`). A user asks for
  a one-time code by e-mail, checks the code, and sets a new password. In the
  model, class `ForgotPassword.ForgotPasswordController` holds the user
  repository as `users: map<string, string>` (e-mail to encoded password) and
  the OTP repository as `otps`, a set of `(fpid, otp, expirationTime, email)`
  records. Handlers take the current time `now` in milliseconds.

Each mutating handler is a method. Its `ensures` give the whole new state in
terms of the old one, for every branch: the error exits and the success path.
Read-only operations are functions or methods that change nothing.
`JavaText` models the two pieces of `java.lang.String` behaviour the code
uses: `Integer` to decimal text, and `equalsIgnoreCase`.

Collaborators whose code is not part of this model are treated as follows:

- `FileService.uploadFile` is the constant naming function `nameUpload`. Upload
  adds `path + "/" + name` to `files`.
- `PasswordEncoder.encode` is the constant function `encode`.
- The paged repository query is the constant function `queryPage`. It returns
  a page, or `None` when the query raises.
- `Random` is a nondeterministic choice in the generator's range.
- Mail sending is the ghost log `outbox`.
- The identifier generators of the two repositories are the counters `nextId`
  and `nextFpid`.

Behaviour of the code worth noting:

- The reset reply reads `"Password   has been changes !"`.
- `nextInt(100_000, 999_999)` never yields 999999.
- A password change for an unknown e-mail updates no user but still replies
  with success.
- The sent mail does not contain the code.

A natural invariant is that every row's poster file exists while the row
does: `PostersPresent` states it. `AddMovie` preserves it. `UpdateMovie` and
`DeleteMovie` preserve it only when no other row uses the same poster name
(`PosterOwned`). Whether two rows can share a name depends on
`FileService.uploadFile`, which is not part of this model.

## Model

| member | source | states |
|---|---|---|
| `JavaText.IntToString` | src/main/java/com/movieflix/movieApi/service/MovieServiceImpl.java:209 | The decimal text of the id in the delete reply is non-empty and starts with '-' exactly when the id is negative |
| `JavaText.IntToStringInjective` | src/main/java/com/movieflix/movieApi/service/MovieServiceImpl.java:209 | Distinct ids give distinct texts, so the delete reply identifies the deleted movie |
| `JavaText.NatToStringInjective` | src/main/java/com/movieflix/movieApi/service/MovieServiceImpl.java:209 | Distinct non-negative ids have distinct decimal digits |
| `JavaText.AscSpellings` | src/main/java/com/movieflix/movieApi/service/MovieServiceImpl.java:251 | `dir.equalsIgnoreCase("asc")` holds exactly for a/A, then s/S/U+017F, then c/C |
| `Movies.FilePath` | src/main/java/com/movieflix/movieApi/service/MovieServiceImpl.java:50 | The path of a poster starts with the poster directory and ends with the file name |
| `Movies.PosterUrl` | src/main/java/com/movieflix/movieApi/service/MovieServiceImpl.java:76 | The poster URL is the base URL, then exactly "/file/", then the poster file name |
| `Movies.PosterUrlInjective` | src/main/java/com/movieflix/movieApi/service/MovieServiceImpl.java:99 | Under one base URL, two posters have the same URL only if they are the same file |
| `Movies.ToDto` | src/main/java/com/movieflix/movieApi/service/MovieServiceImpl.java:103-113 | A response mirrors its row field by field (`RowOf` gives the row back) and carries that row's poster URL |
| `Movies.SortedRequest` | src/main/java/com/movieflix/movieApi/service/MovieServiceImpl.java:251-253 | The page request keeps the page number, size and sort property, and sorts ascending exactly when `dir` equals "asc" ignoring case |
| `Movies.ListingLength` | src/main/java/com/movieflix/movieApi/service/MovieServiceImpl.java:121 | A listing that names every row exactly once is as long as the repository has rows |
| `Movies.MovieService.UploadFile` | src/main/java/com/movieflix/movieApi/service/MovieServiceImpl.java:54 | The upload adds exactly the file it names to the poster directory |
| `Movies.MovieService.AddMovie` | src/main/java/com/movieflix/movieApi/service/MovieServiceImpl.java:47-91 | A taken original file name fails with FileAlreadyExists, with no upload and no row. Otherwise the result is exactly one new row under a fresh id whose poster is the uploaded name, one new file, title/director/studio/cast/year equal to the input, and posterUrl built from the uploaded name; the id counter advances by one. Posters stay present |
| `Movies.MovieService.GetMovie` | src/main/java/com/movieflix/movieApi/service/MovieServiceImpl.java:94-116 | Succeeds exactly when the id has a row. It then mirrors that row with its poster URL, and otherwise fails with MovieNotFound for that id. It reads state only |
| `Movies.MovieService.FindAll` | src/main/java/com/movieflix/movieApi/service/MovieServiceImpl.java:121 | The store's listing holds every row exactly once, in an unspecified order |
| `Movies.MovieService.MapToDtos` | src/main/java/com/movieflix/movieApi/service/MovieServiceImpl.java:127-141 | The result is as long as the input, and element i is the projection of movie i |
| `Movies.MovieService.GetAllMovies` | src/main/java/com/movieflix/movieApi/service/MovieServiceImpl.java:119-143 | The list has the same length and order as findAll(), element i is movie i's projection, and there is one entry per row |
| `Movies.MovieService.UpdateMovie` | src/main/java/com/movieflix/movieApi/service/MovieServiceImpl.java:146-196 | An absent id fails with MovieNotFound and nothing changes. Without a file, the poster is kept and no file is touched. With a file, a missing old poster fails with NoSuchFile and nothing changes; otherwise the old poster is replaced by the uploaded one. On success the id is kept and the row's fields become the dto's |
| `Movies.MovieService.DeleteMovie` | src/main/java/com/movieflix/movieApi/service/MovieServiceImpl.java:199-210 | An absent id fails with MovieNotFound and nothing changes. Otherwise the poster file is gone, whether or not it was there, the row is gone, and the reply is "Movie deleted with id = " followed by the id |
| `Movies.MovieService.PageResponse` | src/main/java/com/movieflix/movieApi/service/MovieServiceImpl.java:221-246 | Echoes the page number and size, maps the page content in order, and passes totalElements, totalPages and isLast through. A raising query fails |
| `Movies.MovieService.GetAllMoviesWithPagination` | src/main/java/com/movieflix/movieApi/service/MovieServiceImpl.java:213-247 | The response to the unsorted page request for the same number and size has the echo, in-order mapping and pass-through above |
| `Movies.MovieService.GetAllMoviesWithPaginationAndSorting` | src/main/java/com/movieflix/movieApi/service/MovieServiceImpl.java:250-286 | The same for the request sorted on `sortBy`, ascending exactly when `dir` is "asc" ignoring case |
| `Movies.AddThenGet` | src/main/java/com/movieflix/movieApi/service/MovieServiceImpl.java:47-116 | Right after a successful add, get on the new id returns the added response with the input's fields |
| `Movies.DeleteTwice` | src/main/java/com/movieflix/movieApi/service/MovieServiceImpl.java:199-210 | A second delete of the same id fails with MovieNotFound, and neither the row nor its poster file remains |
| `ForgotPassword.ResetMail` | src/main/java/com/movieflix/movieApi/controllers/ForgotPasswordController.java:42-46 | The mail is addressed to the given e-mail. Its fixed subject and text take no code |
| `ForgotPassword.ForgotPasswordController.OtpGenerator` | src/main/java/com/movieflix/movieApi/controllers/ForgotPasswordController.java:86-89 | The code lies in [100000, 999999), because the upper bound is exclusive |
| `ForgotPassword.ForgotPasswordController.VerifyEmail` | src/main/java/com/movieflix/movieApi/controllers/ForgotPasswordController.java:37-57 | An unknown e-mail fails with UsernameNotFound, with no record and no mail. A known one sends one mail with fixed subject and text to that address. It saves exactly one new record for that user, with a code in range and expiry now + 70000 ms, advances the record id counter by one, and replies "Email sent for verification" |
| `ForgotPassword.ForgotPasswordController.VerifyOtp` | src/main/java/com/movieflix/movieApi/controllers/ForgotPasswordController.java:59-71 | An unknown e-mail gives UsernameNotFound, and no matching (code, user) record gives InvalidOtp; the store is unchanged in both. A matched record with expiry strictly before now is deleted, and only it, with reply Expired. Otherwise (expiry at or after now) the reply is "OTP Verified" and the record stays |
| `ForgotPassword.ForgotPasswordController.ChangePassword` | src/main/java/com/movieflix/movieApi/controllers/ForgotPasswordController.java:73-83 | Differing passwords reply Mismatch and change no password. Equal ones set that user's hash to encode(password), leave every other user alone, and consult or remove no OTP record |
| `ForgotPassword.ExpiredCodeIsSpent` | src/main/java/com/movieflix/movieApi/controllers/ForgotPasswordController.java:63-68 | Once a user's only record for a code is reported expired, a later check of that code gives InvalidOtp |
| `ForgotPassword.VerifyTwiceInWindow` | src/main/java/com/movieflix/movieApi/controllers/ForgotPasswordController.java:65-70 | Inside the window a code verifies twice in a row: verifying consumes nothing |
| `ForgotPassword.ResetWithoutOtp` | src/main/java/com/movieflix/movieApi/controllers/ForgotPasswordController.java:74-81 | A user with no OTP record at all still gets the new password: the reset is not gated by the OTP step |

## Left out

- Routing, dependency injection, `ResponseEntity` and HTTP status codes. Replies are the `Result` and `Reply` datatypes. Exceptions are reduced to the data they carry: the id for MovieNotFound, the path for NoSuchFile, and nothing for FileAlreadyExists, whose fixed message is left out.
- The real filesystem. `files` is a set of paths, and `File.separator` is taken as "/".
- Movies.FilePath: `Paths.get` normalisation (dropped trailing or repeated separators) and directories are not modelled. A path is the raw string `path + "/" + name`, so a name that aliases an existing path, such as `"a.png/"` for an existing `a.png` or the empty name (the directory itself), is not refused by `AddMovie` as `Files.exists` would refuse it.
- Movies.MovieService.AddMovie, Movies.MovieService.UpdateMovie: `movieDto.setPoster(...)` also writes the poster name into the caller's dto object. The model's `MovieDto` is an immutable value, so that update of the caller's object is not modelled; only the returned response carries the name.
- `FileService.uploadFile` is not part of this model. It is represented by the naming function `nameUpload`; its failures and its behaviour on a name already present are not modelled.
- The JPA repositories. Generated ids are counters, and `findAll()` lists the rows in an unspecified order.
- The paged query. How Spring Data computes the slice, totalPages and isLast, and which page requests or sort properties it refuses, belong to the library. The model takes the store's answer (`queryPage`) as given.
- `Random` is a nondeterministic choice in range. `PasswordEncoder.encode` is a fixed function, so the salt of a real encoder is not modelled. Mail transport is the ghost `outbox` log.
- `findByOtpAndUser` with several records sharing a code and user: Spring Data would raise; the model picks one of them.
- JavaText.EqualsIgnoreCase: Java's full Unicode case mapping is represented only for ASCII letters and U+017F. This is exact for comparisons with "asc" but not for arbitrary strings.
- Null arguments, such as a null upload in add or a null `dir`, which the code dereferences without a check.
- The file write and the row write are not in one transaction. Crashes between them and concurrent requests are not modelled.
- `auth/utils/AuthResponse.java` is a data carrier with no behaviour.
