/** The movie catalogue service: create, read, update, delete and list movie
    rows, each poster kept as a file in the poster directory and exposed
    through a URL derived from the configured base URL. The JPA repository is
    the map `rows`, the poster directory the set `files` of file paths. */
module Movies {
  import opened Common
  import opened JavaText

  /** A persisted movie row. */
  datatype Movie = Movie(
    id: int, title: string, director: string, studio: string,
    cast: seq<string>, releaseYear: int, poster: string)

  /** The response (and request) projection of a row, with the poster URL. */
  datatype MovieDto = MovieDto(
    id: int, title: string, director: string, studio: string,
    cast: seq<string>, releaseYear: int, poster: string, posterUrl: string)

  /** A multipart upload: the client's file name and its bytes. */
  datatype Upload = Upload(originalFilename: string, content: seq<bv8>)

  datatype Error =
    | MovieNotFound(movieId: int)     // MovieNotFoundException
    | FileAlreadyExists               // FileAlreadyExistsException, whose only data is a fixed message
    | NoSuchFile(file: string)        // NoSuchFileException from Files.delete
    | QueryRejected                   // the paged query raised (bad page request or sort property)

  datatype Result<T> = Ok(value: T) | Err(error: Error)

  datatype Direction = Asc | Desc
  datatype Sort = Unsorted | By(property: string, direction: Direction)
  datatype PageRequest = PageRequest(page: int, size: int, sort: Sort)

  /** What the store answers to a paged query. */
  datatype Page = Page(content: seq<Movie>, totalElements: int, totalPages: int, isLast: bool)

  datatype MoviePageResponse = MoviePageResponse(
    movieDtos: seq<MovieDto>, pageNumber: int, pageSize: int,
    totalElements: int, totalPages: int, isLast: bool)

  /** File.separator, taken as the POSIX one. */
  const Separator := "/"

  /** The path of file `name` inside directory `dir`. */
  function FilePath(dir: string, name: string): (p: string)
    ensures |p| == |dir| + |Separator| + |name|
    ensures p[..|dir|] == dir && p[|p| - |name|..] == name
  {
    dir + Separator + name
  }

  /** The public URL of poster `name`: the base URL, "/file/", the name. */
  function PosterUrl(baseUrl: string, name: string): (u: string)
    ensures |u| == |baseUrl| + 6 + |name|
    ensures u[..|baseUrl|] == baseUrl && u[|u| - |name|..] == name
    ensures u[|baseUrl|..|baseUrl| + 6] == "/file/"
  {
    baseUrl + "/file/" + name
  }

  /** Two posters behind the same base URL share a URL only if they are the same file. */
  lemma PosterUrlInjective(baseUrl: string, a: string, b: string)
    requires PosterUrl(baseUrl, a) == PosterUrl(baseUrl, b)
    ensures a == b
  {
  }

  /** The row a response was projected from. */
  function RowOf(d: MovieDto): Movie {
    Movie(d.id, d.title, d.director, d.studio, d.cast, d.releaseYear, d.poster)
  }

  /** A response mirrors its row and carries the URL of the row's poster. */
  function ToDto(m: Movie, baseUrl: string): (d: MovieDto)
    ensures RowOf(d) == m
    ensures d.posterUrl == PosterUrl(baseUrl, m.poster)
  {
    MovieDto(m.id, m.title, m.director, m.studio, m.cast, m.releaseYear, m.poster,
             PosterUrl(baseUrl, m.poster))
  }

  /** Element i of `dtos` is the projection of element i of `movies`. */
  ghost predicate Mirrors(dtos: seq<MovieDto>, movies: seq<Movie>, baseUrl: string) {
    |dtos| == |movies| &&
    forall i :: 0 <= i < |dtos| ==> dtos[i] == ToDto(movies[i], baseUrl)
  }

  /** `movies` lists every row of `rows` exactly once, in some order. */
  ghost predicate IsListing(movies: seq<Movie>, rows: map<int, Movie>) {
    && (forall i :: 0 <= i < |movies| ==> movies[i].id in rows && rows[movies[i].id] == movies[i])
    && (forall i, j :: 0 <= i < j < |movies| ==> movies[i].id != movies[j].id)
    && (forall k :: k in rows ==> exists i :: 0 <= i < |movies| && movies[i].id == k)
  }

  /** Sort.by(sortBy) ascending exactly when `dir` equals "asc" ignoring case. */
  function SortedRequest(pageNumber: int, pageSize: int, sortBy: string, dir: string): (req: PageRequest)
    ensures req.page == pageNumber && req.size == pageSize
    ensures req.sort.By? && req.sort.property == sortBy
    ensures req.sort.direction == Asc <==> EqualsIgnoreCase(dir, "asc")
  {
    var direction := if EqualsIgnoreCase(dir, "asc") then Asc else Desc;
    PageRequest(pageNumber, pageSize, By(sortBy, direction))
  }

  class MovieService {
    /** The movie repository, by movie id. */
    var rows: map<int, Movie>
    /** The id the repository assigns to the next saved row. */
    var nextId: int
    /** The paths of the files present in the poster directory. */
    var files: set<string>

    /** Configuration: the poster directory and the public base URL. */
    const path: string
    const baseUrl: string
    /** The name FileService.uploadFile gives an upload. */
    const nameUpload: Upload -> string
    /** The repository's paged query, or None when it raises. */
    const queryPage: (map<int, Movie>, PageRequest) -> Option<Page>

    ghost predicate Valid()
      reads this
    {
      forall k :: k in rows ==> rows[k].id == k && k < nextId
    }

    /** Every row's poster is a file of the poster directory. */
    ghost predicate PostersPresent()
      reads this
    {
      forall k :: k in rows ==> FilePath(path, rows[k].poster) in files
    }

    /** No row other than `id` uses the poster of row `id`. */
    ghost predicate PosterOwned(id: int)
      reads this
      requires id in rows
    {
      forall k :: k in rows && k != id ==> rows[k].poster != rows[id].poster
    }

    constructor (path: string, baseUrl: string, nameUpload: Upload -> string,
                 queryPage: (map<int, Movie>, PageRequest) -> Option<Page>,
                 rows: map<int, Movie>, nextId: int, files: set<string>)
      requires forall k :: k in rows ==> rows[k].id == k && k < nextId
      ensures Valid()
      ensures this.path == path && this.baseUrl == baseUrl
      ensures this.nameUpload == nameUpload && this.queryPage == queryPage
      ensures this.rows == rows && this.nextId == nextId && this.files == files
    {
      this.path, this.baseUrl := path, baseUrl;
      this.nameUpload, this.queryPage := nameUpload, queryPage;
      this.rows, this.nextId, this.files := rows, nextId, files;
    }

    /** FileService.uploadFile: writes the upload into the poster directory. */
    method UploadFile(file: Upload) returns (name: string)
      modifies this`files
      ensures name == nameUpload(file)
      ensures files == old(files) + {FilePath(path, name)}
    {
      name := nameUpload(file);
      files := files + {FilePath(path, name)};
    }

    /** Refuses an upload whose original name is already in the poster
        directory; otherwise stores it and saves a new row that uses it. */
    method AddMovie(dto: MovieDto, file: Upload) returns (r: Result<MovieDto>)
      requires Valid()
      modifies this
      ensures Valid()
      ensures FilePath(path, file.originalFilename) in old(files) ==>
        r == Err(FileAlreadyExists) &&
        rows == old(rows) && files == old(files) && nextId == old(nextId)
      ensures FilePath(path, file.originalFilename) !in old(files) ==>
        var name := nameUpload(file);
        var id := old(nextId);
        && id !in old(rows)
        && r.Ok?
        && r.value.id == id
        && r.value.title == dto.title && r.value.director == dto.director
        && r.value.studio == dto.studio && r.value.cast == dto.cast
        && r.value.releaseYear == dto.releaseYear
        && r.value.poster == name
        && r.value.posterUrl == PosterUrl(baseUrl, name)
        && rows == old(rows)[id := RowOf(r.value)]
        && files == old(files) + {FilePath(path, name)}
        && nextId == old(nextId) + 1
      ensures old(PostersPresent()) ==> PostersPresent()
    {
      var original := FilePath(path, file.originalFilename);
      if original in files {
        return Err(FileAlreadyExists);
      }
      var uploadedFileName := UploadFile(file);
      var movie := Movie(nextId, dto.title, dto.director, dto.studio, dto.cast,
                         dto.releaseYear, uploadedFileName);
      rows := rows[nextId := movie];
      nextId := nextId + 1;
      r := Ok(ToDto(movie, baseUrl));
    }

    /** The row with id `movieId` with its poster URL, or MovieNotFound. */
    function GetMovie(movieId: int): (r: Result<MovieDto>)
      reads this
      ensures r.Ok? <==> movieId in rows
      ensures r.Err? ==> r.error == MovieNotFound(movieId)
      ensures r.Ok? ==> RowOf(r.value) == rows[movieId] &&
                        r.value.posterUrl == PosterUrl(baseUrl, rows[movieId].poster)
    {
      if movieId in rows then Ok(ToDto(rows[movieId], baseUrl)) else Err(MovieNotFound(movieId))
    }

    /** The repository's findAll(): every row once, in an order it chooses. */
    method FindAll() returns (movies: seq<Movie>)
      requires Valid()
      ensures IsListing(movies, rows)
    {
      movies := [];
      var left := rows.Keys;
      ghost var listed: set<int> := {};
      while left != {}
        invariant left !! listed && left + listed == rows.Keys
        invariant forall i :: 0 <= i < |movies| ==>
          movies[i].id in listed && rows[movies[i].id] == movies[i]
        invariant forall i, j :: 0 <= i < j < |movies| ==> movies[i].id != movies[j].id
        invariant forall k :: k in listed ==> exists i :: 0 <= i < |movies| && movies[i].id == k
        decreases left
      {
        // A witness for the choice below; the name itself is not used.
        ghost var some := PickMember(left);
        var k :| k in left;
        ghost var before := movies;
        movies, left, listed := movies + [rows[k]], left - {k}, listed + {k};
        forall k' | k' in listed ensures exists i :: 0 <= i < |movies| && movies[i].id == k' {
          if k' == k {
            assert movies[|movies| - 1].id == k';
          } else {
            var i :| 0 <= i < |before| && before[i].id == k';
            assert movies[i].id == k';
          }
        }
      }
    }

    /** The loop the listings share: one projection per movie, in order. */
    method MapToDtos(movies: seq<Movie>) returns (dtos: seq<MovieDto>)
      ensures Mirrors(dtos, movies, baseUrl)
    {
      dtos := [];
      for i := 0 to |movies|
        invariant Mirrors(dtos, movies[..i], baseUrl)
      {
        dtos := dtos + [ToDto(movies[i], baseUrl)];
      }
    }

    /** Every row, projected, in the order findAll() returned them. */
    method GetAllMovies() returns (dtos: seq<MovieDto>, ghost movies: seq<Movie>)
      requires Valid()
      ensures IsListing(movies, rows)
      ensures Mirrors(dtos, movies, baseUrl)
      ensures |dtos| == |rows|
    {
      var listed := FindAll();
      dtos := MapToDtos(listed);
      movies := listed;
      ListingLength(movies, rows);
    }

    /** Replaces the fields of row `movieId` by the dto's. With a file, the old
        poster is deleted first (a missing one aborts the update) and the
        upload becomes the poster; without one the poster is kept. */
    method UpdateMovie(movieId: int, dto: MovieDto, file: Option<Upload>) returns (r: Result<MovieDto>)
      requires Valid()
      modifies this
      ensures Valid() && nextId == old(nextId)
      ensures movieId !in old(rows) ==>
        r == Err(MovieNotFound(movieId)) && rows == old(rows) && files == old(files)
      ensures movieId in old(rows) && file.Some? &&
              FilePath(path, old(rows[movieId].poster)) !in old(files) ==>
        r == Err(NoSuchFile(FilePath(path, old(rows[movieId].poster)))) &&
        rows == old(rows) && files == old(files)
      ensures movieId in old(rows) && file.None? ==>
        r.Ok? && r.value.poster == old(rows[movieId].poster) && files == old(files)
      ensures movieId in old(rows) && file.Some? &&
              FilePath(path, old(rows[movieId].poster)) in old(files) ==>
        r.Ok? && r.value.poster == nameUpload(file.value) &&
        files == old(files) - {FilePath(path, old(rows[movieId].poster))}
                            + {FilePath(path, nameUpload(file.value))}
      ensures r.Ok? ==>
        && r.value.id == movieId
        && r.value.title == dto.title && r.value.director == dto.director
        && r.value.studio == dto.studio && r.value.cast == dto.cast
        && r.value.releaseYear == dto.releaseYear
        && r.value.posterUrl == PosterUrl(baseUrl, r.value.poster)
        && rows == old(rows)[movieId := RowOf(r.value)]
      ensures movieId in old(rows) && old(PostersPresent()) && old(PosterOwned(movieId)) ==>
        PostersPresent()
    {
      if movieId !in rows {
        return Err(MovieNotFound(movieId));
      }
      var mv := rows[movieId];
      var fileName := mv.poster;
      if file.Some? {
        var previous := FilePath(path, fileName);
        if previous !in files {
          return Err(NoSuchFile(previous));
        }
        files := files - {previous};
        fileName := UploadFile(file.value);
      }
      var movie := Movie(mv.id, dto.title, dto.director, dto.studio, dto.cast,
                         dto.releaseYear, fileName);
      rows := rows[movieId := movie];
      r := Ok(ToDto(movie, baseUrl));
    }

    /** Deletes the poster file if it is there, then the row. */
    method DeleteMovie(movieId: int) returns (r: Result<string>)
      requires Valid()
      modifies this
      ensures Valid() && nextId == old(nextId)
      ensures movieId !in old(rows) ==>
        r == Err(MovieNotFound(movieId)) && rows == old(rows) && files == old(files)
      ensures movieId in old(rows) ==>
        && r == Ok("Movie deleted with id = " + IntToString(movieId))
        && files == old(files) - {FilePath(path, old(rows[movieId].poster))}
        && rows == old(rows) - {movieId}
      ensures movieId in old(rows) && old(PostersPresent()) && old(PosterOwned(movieId)) ==>
        PostersPresent()
    {
      if movieId !in rows {
        return Err(MovieNotFound(movieId));
      }
      var mv := rows[movieId];
      var id := mv.id;
      files := files - {FilePath(path, mv.poster)};
      rows := rows - {mv.id};
      r := Ok("Movie deleted with id = " + IntToString(id));
    }

    /** The response built from a page: the request's number and size echoed,
        the content projected in order, the store's totals passed through. */
    method PageResponse(pageNumber: int, pageSize: int, page: Option<Page>)
      returns (r: Result<MoviePageResponse>)
      ensures page.None? ==> r == Err(QueryRejected)
      ensures page.Some? ==>
        && r.Ok?
        && r.value.pageNumber == pageNumber && r.value.pageSize == pageSize
        && Mirrors(r.value.movieDtos, page.value.content, baseUrl)
        && r.value.totalElements == page.value.totalElements
        && r.value.totalPages == page.value.totalPages
        && r.value.isLast == page.value.isLast
    {
      if page.None? {
        return Err(QueryRejected);
      }
      var p := page.value;
      var movieDtos := MapToDtos(p.content);
      r := Ok(MoviePageResponse(movieDtos, pageNumber, pageSize,
                                p.totalElements, p.totalPages, p.isLast));
    }

    /** One unsorted page of rows. */
    method GetAllMoviesWithPagination(pageNumber: int, pageSize: int)
      returns (r: Result<MoviePageResponse>)
      ensures var page := queryPage(rows, PageRequest(pageNumber, pageSize, Unsorted));
        && (page.None? ==> r == Err(QueryRejected))
        && (page.Some? ==>
              && r.Ok?
              && r.value.pageNumber == pageNumber && r.value.pageSize == pageSize
              && Mirrors(r.value.movieDtos, page.value.content, baseUrl)
              && r.value.totalElements == page.value.totalElements
              && r.value.totalPages == page.value.totalPages
              && r.value.isLast == page.value.isLast)
    {
      var pageable := PageRequest(pageNumber, pageSize, Unsorted);
      r := PageResponse(pageNumber, pageSize, queryPage(rows, pageable));
    }

    /** One page of rows sorted on `sortBy`, ascending exactly when `dir`
        is "asc" in any case, descending otherwise. */
    method GetAllMoviesWithPaginationAndSorting(pageNumber: int, pageSize: int, sortBy: string, dir: string)
      returns (r: Result<MoviePageResponse>)
      ensures var page := queryPage(rows, SortedRequest(pageNumber, pageSize, sortBy, dir));
        && (page.None? ==> r == Err(QueryRejected))
        && (page.Some? ==>
              && r.Ok?
              && r.value.pageNumber == pageNumber && r.value.pageSize == pageSize
              && Mirrors(r.value.movieDtos, page.value.content, baseUrl)
              && r.value.totalElements == page.value.totalElements
              && r.value.totalPages == page.value.totalPages
              && r.value.isLast == page.value.isLast)
    {
      var pageable := SortedRequest(pageNumber, pageSize, sortBy, dir);
      r := PageResponse(pageNumber, pageSize, queryPage(rows, pageable));
    }
  }

  /** A listing is as long as the repository has rows. */
  lemma {:induction false} ListingLength(movies: seq<Movie>, rows: map<int, Movie>)
    requires IsListing(movies, rows)
    ensures |movies| == |rows|
  {
    if movies == [] {
      assert forall k :: k !in rows;
      assert rows == map[];
    } else {
      var last := movies[|movies| - 1];
      var rest := movies[..|movies| - 1];
      var smaller := rows - {last.id};
      assert IsListing(rest, smaller) by {
        forall k | k in smaller ensures exists i :: 0 <= i < |rest| && rest[i].id == k {
          var i :| 0 <= i < |movies| && movies[i].id == k;
          assert i != |movies| - 1;
          assert rest[i].id == k;
        }
      }
      ListingLength(rest, smaller);
    }
  }

  /** Immediately after a successful add, get returns what was added. */
  method AddThenGet(s: MovieService, dto: MovieDto, file: Upload)
    returns (added: Result<MovieDto>, got: Result<MovieDto>)
    requires s.Valid()
    modifies s
    ensures added.Ok? ==> got == added
    ensures added.Ok? ==> got.value.title == dto.title && got.value.director == dto.director &&
                          got.value.studio == dto.studio && got.value.cast == dto.cast &&
                          got.value.releaseYear == dto.releaseYear
  {
    added := s.AddMovie(dto, file);
    if added.Ok? {
      got := s.GetMovie(added.value.id);
    } else {
      got := added;
    }
  }

  /** A second delete of the same id fails with MovieNotFound and leaves neither row nor poster. */
  method DeleteTwice(s: MovieService, movieId: int) returns (first: Result<string>, second: Result<string>)
    requires s.Valid()
    modifies s
    ensures movieId in old(s.rows) ==> first.Ok?
    ensures second == Err(MovieNotFound(movieId))
    ensures movieId !in s.rows
    ensures movieId in old(s.rows) ==> FilePath(s.path, old(s.rows[movieId].poster)) !in s.files
  {
    first := s.DeleteMovie(movieId);
    second := s.DeleteMovie(movieId);
  }
}
