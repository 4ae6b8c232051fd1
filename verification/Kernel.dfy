/** How the kernel answers a sequence of calls on one descriptor. */
module Kernel {

  const EINTR := 4
  const EAGAIN := 11

  // Call number k is answered with `kernel(k)`: an error below zero, or the bytes the kernel is
  // ready to take, of which it takes at most what it is offered.

  /** Some call from `k` on is not interrupted. */
  ghost predicate HeardFrom(kernel: nat -> int, k: nat) {
    exists j: nat :: j >= k && kernel(j) != -EINTR
  }

  /** Calls are not interrupted for ever. */
  ghost predicate Patient(kernel: nat -> int) {
    forall k: nat :: HeardFrom(kernel, k)
  }
}
