/** `Utils.cleanURL`: joins a media host and a key or path into one URL. */
module Utils {
  import opened Strings

  /** `host` without one trailing slash, if it has one. */
  function WithoutTrailingSlash(host: string): string {
    if EndsWith(host, "/") then host[..|host| - 1] else host
  }

  /** `url` without one leading slash, if it has one. */
  function WithoutLeadingSlash(url: string): string {
    if StartsWith(url, "/") then url[1..] else url
  }

  /** An absolute `http…` url passes through; any other url is appended to the
      host with exactly one slash between them, whichever of the two already
      carried a slash at the junction. */
  function CleanUrl(host: string, url: string): (r: string)
    ensures StartsWith(url, "http") ==> r == url
    ensures !StartsWith(url, "http") ==>
              r == WithoutTrailingSlash(host) + "/" + WithoutLeadingSlash(url)
  {
    if StartsWith(url, "http") then url
    else if StartsWith(url, "/") && EndsWith(host, "/") then
      assert host == host[..|host| - 1] + "/";
      host + url[1..]
    else if StartsWith(url, "/") then
      assert url == "/" + url[1..];
      host + url
    else if EndsWith(host, "/") then
      assert host == host[..|host| - 1] + "/";
      host + url
    else host + "/" + url
  }

  /** For a relative url the result begins with the whole host, and its length
      is the two lengths summed, less one when both carry the junction slash,
      plus one when neither does. */
  lemma CleanUrlShape(host: string, url: string)
    requires !StartsWith(url, "http")
    ensures StartsWith(CleanUrl(host, url), host)
    ensures StartsWith(url, "/") && EndsWith(host, "/") ==> |CleanUrl(host, url)| == |host| + |url| - 1
    ensures StartsWith(url, "/") != EndsWith(host, "/") ==> |CleanUrl(host, url)| == |host| + |url|
    ensures !StartsWith(url, "/") && !EndsWith(host, "/") ==> |CleanUrl(host, url)| == |host| + |url| + 1
  {
    var r := CleanUrl(host, url);
    if EndsWith(host, "/") {
      assert host == host[..|host| - 1] + "/";
      assert r == host + WithoutLeadingSlash(url);
    } else {
      assert r == host + "/" + WithoutLeadingSlash(url);
    }
  }

  /** Whether the host ends with a slash and whether the path starts with one,
      all four combinations give the same URL. */
  lemma CleanUrlSlashCombinations(host: string, path: string)
    requires !EndsWith(host, "/") && !StartsWith(path, "/") && !StartsWith(path, "http")
    ensures CleanUrl(host + "/", "/" + path) == host + "/" + path
    ensures CleanUrl(host, "/" + path) == host + "/" + path
    ensures CleanUrl(host + "/", path) == host + "/" + path
    ensures CleanUrl(host, path) == host + "/" + path
  {
    assert (host + "/")[..|host|] == host;
    assert ("/" + path)[1..] == path;
    assert !StartsWith("/" + path, "http");
  }

  /** The unit tests' vectors: an absolute url is returned as it is, and the
      four slash combinations of one host and one path agree. */
  lemma CleanUrlExamples()
    ensures CleanUrl("https://example.com", "https://another-domain.com/path") == "https://another-domain.com/path"
    ensures CleanUrl("https://example.com/", "/path/to/resource") == "https://example.com/path/to/resource"
    ensures CleanUrl("https://example.com", "/path/to/resource") == "https://example.com/path/to/resource"
    ensures CleanUrl("https://example.com/", "path/to/resource") == "https://example.com/path/to/resource"
    ensures CleanUrl("https://example.com", "path/to/resource") == "https://example.com/path/to/resource"
  {
    var host, path := "https://example.com", "path/to/resource";
    assert "https://another-domain.com/path"[..4] == "http";
    assert "https://example.com/" == host + "/";
    assert "/path/to/resource" == "/" + path;
    assert "https://example.com/path/to/resource" == host + "/" + path;
    assert path[0] == 'p' && host[|host| - 1] == 'm';
    CleanUrlSlashCombinations(host, path);
  }
}
