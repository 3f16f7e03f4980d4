// The queue of cfail() (fgrep.c:317-345): a circular array, front and rear moved
// as the program moves them. rear can get one place behind the array.

module FgrepQueue {
  const QSIZE := 400

  // How cfail() ends. Beyond: it writes behind the array; what comes after that
  // is not followed. TooLarge: overflo().
  datatype Outcome = Made | TooLarge | Beyond

  // What waits between front and rear.
  function Held(ring: seq<int>, front: int, rear: int): (waiting: seq<int>)
    requires |ring| == QSIZE && 0 <= front < QSIZE && 0 <= rear <= QSIZE
    ensures |waiting| == if front <= rear then rear - front else rear - front + QSIZE
  {
    if front <= rear then ring[front..rear] else ring[front..] + ring[..rear]
  }

  function After(front: int): int {
    if front == QSIZE - 1 then 0 else front + 1
  }

  function Before(front: int): int {
    if front == 0 then QSIZE - 1 else front - 1
  }

  // fgrep.c:333-336.
  method Pop(ring: array<int>, front0: int, ghost rear: int) returns (s: int, front: int)
    requires ring.Length == QSIZE && 0 <= front0 < QSIZE && 0 <= rear <= QSIZE && front0 != rear
    ensures s == ring[front0] == Held(ring[..], front0, rear)[0] && front == After(front0)
    ensures rear < QSIZE || front0 < QSIZE - 1 ==> Held(ring[..], front, rear) == Held(ring[..], front0, rear)[1..]
  {
    s := ring[front0];
    if front0 == QSIZE - 1 {
      front := 0;
    } else {
      front := front0 + 1;
    }
  }

  // fgrep.c:338-345. With rear behind the array, or QSIZE - 1 waiting, there is no
  // place; and a place taken in an empty queue at QSIZE - 1 leaves rear behind the
  // array.
  method Push(ring: array<int>, front: int, rear0: int, q: int) returns (o: Outcome, rear: int)
    requires ring.Length == QSIZE && 0 <= front < QSIZE && 0 <= rear0 <= QSIZE
    modifies ring
    ensures o == if rear0 == QSIZE then Beyond else if |Held(old(ring[..]), front, rear0)| == QSIZE - 1 then TooLarge else Made
    ensures o.Made? ==> rear == (if front == rear0 == QSIZE - 1 then QSIZE else After(rear0)) && ring[..] == old(ring[..])[rear0 := q]
    ensures o.Made? ==> Held(ring[..], front, rear) == Held(old(ring[..]), front, rear0) + [q] && rear0 != Before(front)
  {
    rear := rear0;
    if rear == QSIZE {
      return Beyond, rear;
    }
    ring[rear] := q;
    if front < rear {
      if rear >= QSIZE - 1 {
        if front == 0 {
          return TooLarge, rear;
        } else {
          rear := 0;
        }
      } else {
        rear := rear + 1;
      }
    } else {
      rear := rear + 1;
      if rear == front {
        return TooLarge, rear;
      }
    }
    o := Made;
  }
}
