/*
 * Shared vocabulary of the PSP port of the OS abstraction layer: the
 * platform constants, the OSAL status codes, the kernel return codes the
 * port compares against, and fixed-width integer ranges.
 */
module OsalTypes {

  /** Ceiling of the three wrapping naming counters (MAX_PSP_UID). */
  const MAX_PSP_UID: int := 2048

  /** Smallest stack a created thread gets (DEFAULT_STACK_SIZE_BYTES). */
  const DEFAULT_STACK_SIZE_BYTES: int := 4096

  /** Maximum count of a thread's cancellation semaphore. */
  const CANCEL_SEM_MAX: int := 255

  const TWO_32: int := 0x1_0000_0000
  const U32_MAX: int := 0xFFFF_FFFF
  const INT32_MIN: int := -0x8000_0000
  const INT32_MAX: int := 0x7FFF_FFFF

  predicate IsU32(x: int) { 0 <= x < TWO_32 }
  predicate IsInt32(x: int) { INT32_MIN <= x <= INT32_MAX }

  /** An `unsigned int` (and, on this 32-bit target, a pointer). */
  type U32 = x: int | 0 <= x < 0x1_0000_0000

  /** A 32-bit address; 0 is NULL. */
  type Addr = U32

  /** The OSAL status codes (pte_osResult) this port returns. */
  datatype OsResult = Ok | NoResources | GeneralFailure | Timeout | Interrupted

  datatype Option<T> = None | Some(value: T)

  /*
   * Kernel return codes from the PSP SDK (pspkerror.h), written as the
   * signed 32-bit values an `int`/`SceUID` holds. Comparing an unsigned
   * `SceUInt` against the same code is equality of the same bit pattern.
   */
  const SCE_KERNEL_ERROR_OK: int := 0
  const SCE_KERNEL_ERROR_NO_MEMORY: int := 0x8002_0190 - TWO_32
  const SCE_KERNEL_ERROR_UNKNOWN_SEMID: int := 0x8002_0199 - TWO_32
  const SCE_KERNEL_ERROR_WAIT_TIMEOUT: int := 0x8002_01a8 - TWO_32
  const SCE_KERNEL_ERROR_SEMA_OVF: int := 0x8002_01ae - TWO_32

  /** The run status sceKernelReferThreadRunStatus reports for a thread that has ended. */
  const PSP_THREAD_STOPPED: int := 16
}
