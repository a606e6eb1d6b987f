/** Screen rectangles and the integer arithmetic of the transcript-window
  * auto-arrangement (ControlObject.AutoArrangeTranscriptWindows). */
module Layout {

  /** A window's position and size, as wx reports them. */
  datatype Rect = Rect(left: int, top: int, width: int, height: int)

  function Bottom(r: Rect): int
  {
    r.top + r.height
  }

  /** The height shared by all transcript windows: from the top of the first
    * one to the bottom of the client display area, 20 pixels more on the Mac. */
  function ArrangeSpace(screenHeight: int, top: int, isMac: bool): (h: int)
    ensures !isMac ==> h == screenHeight - top
    ensures isMac ==> h == screenHeight - top + 20
  {
    screenHeight - top + (if isMac then 20 else 0)
  }

  /** Slot `k` (0-based) of `n` equal slots of `space` pixels starting at `top`.
    * Python 2 `/` on ints floors, as Dafny's does for a positive divisor. */
  function TileRect(left: int, top: int, width: int, space: int, n: nat, k: nat): (r: Rect)
    requires n > 0
    ensures r.left == left && r.width == width
    ensures r.height * n <= space < r.height * n + n
    ensures r.top == top + k * r.height
  {
    Rect(left, top + k * (space / n), width, space / n)
  }

  lemma MulMono(a: int, b: int, c: int)
    requires a <= b && c >= 0
    ensures a * c <= b * c
  {
  }

  /** Consecutive slots touch: slot k+1 starts where slot k ends. */
  lemma TilesContiguous(left: int, top: int, width: int, space: int, n: nat, k: nat)
    requires n > 0
    ensures TileRect(left, top, width, space, n, k + 1).top == Bottom(TileRect(left, top, width, space, n, k))
  {
    var h := space / n;
    assert (k + 1) * h == k * h + h;
  }

  /** Two different slots never overlap. */
  lemma TilesDisjoint(left: int, top: int, width: int, space: int, n: nat, j: nat, k: nat)
    requires n > 0 && j < k && space >= 0
    ensures Bottom(TileRect(left, top, width, space, n, j)) <= TileRect(left, top, width, space, n, k).top
  {
    var h := space / n;
    assert h >= 0;
    MulMono(j + 1, k, h);
    assert (j + 1) * h == j * h + h;
  }

  /** Every one of the n slots lies inside [top, top + space]. */
  lemma TilesFit(left: int, top: int, width: int, space: int, n: nat, k: nat)
    requires 0 <= k < n && space >= 0
    ensures top <= TileRect(left, top, width, space, n, k).top
    ensures Bottom(TileRect(left, top, width, space, n, k)) <= top + space
  {
    var h := space / n;
    assert h >= 0;
    MulMono(0, k, h);
    MulMono(k + 1, n, h);
    assert (k + 1) * h == k * h + h;
    assert n * h == h * n;
  }
}
